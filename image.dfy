/**
 * The image screen: shows one of a list of images.  A short click toggles
 * edit mode, a long click toggles colour inversion, and in edit mode a
 * rotation steps through the images.  Loading, scaling and caching the
 * images belong to drawing and are not part of this model.  The image
 * screen keeps the default `update`, `on_enter` and `on_exit`.
 */
module Image {
  import opened Events
  import opened Wrappers
  import Manager

  /** What the constructor accepts: a single path or a list of paths. */
  datatype PathsArg = OnePath(path: string) | PathList(paths: seq<string>)

  /** The exceptions the screen's own code can raise. */
  datatype Fault = NameError | ZeroDivisionError

  /** A single path becomes a one-element list; a list is kept as given. */
  function NormalisePaths(arg: PathsArg): (paths: seq<string>)
    ensures arg.OnePath? ==> |paths| == 1 && paths[0] == arg.path
    ensures arg.PathList? ==> paths == arg.paths
  {
    match arg
    case OnePath(p) => [p]
    case PathList(ps) => ps
  }

  /**
   * The index after a rotation in edit mode over `n` images: forward, back,
   * or unchanged for a zero delta.  `(index + 1) % n` and `(index - 1) % n`
   * are the coordinator's own wrap-around steps.
   */
  function StepIndex(index: nat, delta: int, n: nat): (j: nat)
    requires index < n
    ensures j < n
    ensures delta > 0 ==> j == if index + 1 < n then index + 1 else 0
    ensures delta < 0 ==> j == if index > 0 then index - 1 else n - 1
    ensures delta == 0 ==> j == index
  {
    if delta > 0 then Manager.NextIndex(index, n)
    else if delta < 0 then Manager.PrevIndex(index, n)
    else index
  }

  /** A rotation one way then the other shows the same image again. */
  lemma StepBackRestores(index: nat, delta: int, n: nat)
    requires index < n
    ensures StepIndex(StepIndex(index, delta, n), -delta, n) == index
  {
  }

  /** The screen's fields right after construction. */
  datatype ImageFields = ImageFields(paths: seq<string>, index: nat, invert: bool, editMode: bool)

  /**
   * Evaluating a bare name that is either a boolean literal or bound nowhere
   * in the module: `True` and `False` give booleans, and any other such
   * (unbound) name raises NameError.
   */
  function Name(name: string): (r: Result<bool, Fault>)
    ensures name == "False" ==> r == Success(false)
    ensures name == "True" ==> r == Success(true)
    ensures name != "False" && name != "True" ==> r == Failure(NameError)
  {
    if name == "False" then Success(false)
    else if name == "True" then Success(true)
    else Failure(NameError)
  }

  /** Construction with the initial edit mode given by evaluating the name `editModeName`. */
  function Construct(arg: PathsArg, editModeName: string): (r: Result<ImageFields, Fault>)
    ensures Name(editModeName).Failure? <==> r.Failure?
    ensures r.Success? ==> r.value == ImageFields(NormalisePaths(arg), 0, false, Name(editModeName).value)
  {
    var paths := NormalisePaths(arg);
    match Name(editModeName)
    case Failure(f) => Failure(f)
    case Success(b) => Success(ImageFields(paths, 0, false, b))
  }

  /** The constructor as written names `false`, which Python does not define: it always raises. */
  lemma ConstructAsWrittenRaises(arg: PathsArg)
    ensures Construct(arg, "false") == Failure(NameError)
  {
    assert "false"[0] != "False"[0];
    assert "false"[0] != "True"[0];
  }

  /** The constructor as intended (`False`) succeeds for every argument, out of edit mode, uninverted, on image 0. */
  lemma ConstructIntendedSucceeds(arg: PathsArg)
    ensures Construct(arg, "False") == Success(ImageFields(NormalisePaths(arg), 0, false, false))
  {
  }

  class ImageScreen {
    const paths: seq<string>
    var index: nat
    var invert: bool
    var editMode: bool

    /** The index is in range whenever there is anything to index. */
    ghost predicate Valid()
      reads this
    {
      if |paths| > 0 then index < |paths| else index == 0
    }

    function Fields(): ImageFields
      reads this
    {
      ImageFields(paths, index, invert, editMode)
    }

    /** Construction as intended, with edit mode off. */
    constructor (arg: PathsArg)
      ensures Valid()
      ensures Construct(arg, "False") == Success(Fields())
    {
      paths := NormalisePaths(arg);
      index := 0;
      invert := false;
      editMode := false;
    }

    /**
     * Whether the event was consumed, or the exception it raised: with no
     * images at all, a non-zero rotation in edit mode divides by zero and
     * changes nothing.
     */
    method Handle(e: Event) returns (r: Result<bool, Fault>)
      requires Valid()
      modifies this
      ensures Valid()
      ensures e.ShortClick? ==> r == Success(true) && Fields() == old(Fields()).(editMode := !old(editMode))
      ensures e.LongClick? ==> r == Success(true) && Fields() == old(Fields()).(invert := !old(invert))
      ensures e.Rotate? && old(editMode) && (e.delta == 0 || |paths| > 0) ==>
        r == Success(true) && Fields() == old(Fields()).(index := if e.delta == 0 then old(index) else StepIndex(old(index), e.delta, |paths|))
      ensures e.Rotate? && old(editMode) && e.delta != 0 && |paths| == 0 ==>
        r == Failure(ZeroDivisionError) && Fields() == old(Fields())
      ensures (e.Rotate? && !old(editMode)) || e.Unknown? ==> r == Success(false) && Fields() == old(Fields())
    {
      if e.ShortClick? {
        editMode := !editMode;
        return Success(true);
      }
      if e.LongClick? {
        invert := !invert;
        return Success(true);
      }
      if e.Rotate? && editMode {
        var d := e.delta;
        if d != 0 && |paths| == 0 {
          return Failure(ZeroDivisionError);
        }
        if d > 0 {
          index := (index + 1) % |paths|;
        } else if d < 0 {
          index := (index - 1) % |paths|;
        }
        return Success(true);
      }
      return Success(false);
    }
  }
}
