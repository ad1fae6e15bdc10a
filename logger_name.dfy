/**
 * The name `get_logger` gives the logger of the function that calls it:
 * `module[.Class][.function]`. The facts it reads off the caller's stack frame are
 * parameters here.
 */
module LoggerNaming {
  import opened Wrappers
  import opened PyStr

  /** What the frame's locals bind to `cls`: nothing, a false value such as None, or a class. */
  datatype ClsBinding = Unbound | Falsy | ClassNamed(name: string)

  /**
   * The facts read off the caller's frame: the module's `__name__`, the class name of
   * `self` when `self` is a local, the binding of `cls`, and the code object's name.
   */
  datatype Frame = Frame(moduleName: string, selfClass: Option<string>, cls: ClsBinding, codeName: string)

  /** The logger's name and the warning issued for a module-level caller, if any. */
  datatype Naming = Naming(name: string, warning: Option<string>)

  /** The code name of module-level code. */
  const MODULE_CODE := "<module>"

  /** The class segment: from `self` when it is a local, otherwise from a true `cls`. */
  function ClassSegment(frame: Frame): (r: Option<string>)
    ensures frame.selfClass.Some? ==> r == frame.selfClass
    ensures frame.selfClass.None? ==> (r.Some? <==> frame.cls.ClassNamed?)
    ensures frame.selfClass.None? && frame.cls.ClassNamed? ==> r == Some(frame.cls.name)
  {
    match frame.selfClass
    case Some(c) => Some(c)
    case None =>
      match frame.cls
      case ClassNamed(n) => Some(n)
      case _ => None
  }

  /** The function segment: the code name unless it is empty or `<module>`. */
  function FunctionSegment(frame: Frame): (r: Option<string>)
    ensures r.Some? <==> frame.codeName != "" && frame.codeName != MODULE_CODE
    ensures r.Some? ==> r.value == frame.codeName
  {
    if frame.codeName != "" && frame.codeName != MODULE_CODE then Some(frame.codeName) else None
  }

  /** The segments after the module name, in order. */
  function Segments(frame: Frame): seq<string> {
    (match ClassSegment(frame) case Some(c) => [c] case None => [])
    + (match FunctionSegment(frame) case Some(f) => [f] case None => [])
  }

  /**
   * `get_logger`'s naming: the module's name, then `.Class` when there is a class segment,
   * then `.function` unless the code name is empty or `<module>`; a `<module>` caller gets
   * a warning that names the logger.
   */
  function LoggerName(frame: Frame): (r: Naming)
    ensures |frame.moduleName| <= |r.name| && r.name[..|frame.moduleName|] == frame.moduleName
    ensures r.warning.Some? <==> frame.codeName == MODULE_CODE
    ensures r.warning.Some? ==> r.warning.value == "global loggers are BAD, name=" + r.name
  {
    var withClass :=
      match ClassSegment(frame)
      case Some(c) => frame.moduleName + "." + c
      case None => frame.moduleName;
    if frame.codeName == "" then
      Naming(withClass, None)
    else if frame.codeName == MODULE_CODE then
      Naming(withClass, Some("global loggers are BAD, name=" + withClass))
    else
      Naming(withClass + "." + frame.codeName, None)
  }

  /**
   * Read back: when the class and function names hold no `.`, what follows the module name
   * is empty exactly when there are no segments, and otherwise is a `.` followed by the
   * segments joined with `.`.
   */
  lemma LoggerNameSegments(frame: Frame)
    requires forall c :: ClassSegment(frame) == Some(c) ==> '.' !in c
    requires '.' !in frame.codeName
    ensures var tail := LoggerName(frame).name[|frame.moduleName|..];
      && (tail == "" <==> Segments(frame) == [])
      && (tail != "" ==> tail[0] == '.' && Split(tail[1..], '.') == Segments(frame))
  {
    var tail := LoggerName(frame).name[|frame.moduleName|..];
    var segs := Segments(frame);
    var name := LoggerName(frame).name;
    match ClassSegment(frame)
    case Some(c) =>
      if FunctionSegment(frame).Some? {
        assert name == frame.moduleName + "." + c + "." + frame.codeName;
        assert tail == "." + c + "." + frame.codeName;
        assert tail[1..] == c + "." + frame.codeName;
        SplitJoin([c, frame.codeName], '.');
        assert Join([c, frame.codeName], '.') == c + "." + frame.codeName;
      } else {
        assert tail == "." + c;
        SplitJoin([c], '.');
      }
    case None =>
      if FunctionSegment(frame).Some? {
        assert tail == "." + frame.codeName;
        SplitJoin([frame.codeName], '.');
      } else {
        assert tail == "";
      }
  }

  /** `self` wins over `cls`: whatever `cls` is bound to, a method's logger names `self`'s class. */
  lemma SelfTakesPrecedence(frame: Frame, cls: ClsBinding)
    requires frame.selfClass.Some?
    ensures LoggerName(frame.(cls := cls)) == LoggerName(frame)
  {
  }

  /** A module-level caller gets no function segment: its logger is named for the module (and class). */
  lemma ModuleLevelName(frame: Frame)
    requires frame.codeName == MODULE_CODE
    ensures LoggerName(frame).name == LoggerName(frame.(codeName := "")).name
    ensures LoggerName(frame.(codeName := "")).warning.None?
  {
  }
}
