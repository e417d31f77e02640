// The agent's state file: written through a temporary file and a backup copy, and read back after a crash anywhere.
module StateFile {
  import opened Numbers

  // A file that parses, or one that does not.
  datatype File<+T> = Missing | Torn | Holds(state: T)

  // The state file, its backup, and the temporary file.
  datatype Files<+T> = Files(main: File<T>, bak: File<T>, tmp: File<T>)

  // How far a save gets before the process dies.
  datatype Point = TmpOpened | TmpWritten | CopyBegun | CopyDone | Finished

  datatype Loaded<+T> = Loaded(state: T, fromBackup: bool)

  // ---------- the specification ----------

  // The files after a save that got as far as `p`.
  function Saved<T>(f: Files<T>, s: T, p: Point): Files<T> {
    var copied := if f.main.Missing? then f.bak else f.main;
    match p
    case TmpOpened => f.(tmp := Torn)
    case TmpWritten => f.(tmp := Holds(s))
    case CopyBegun => Files(f.main, if f.main.Missing? then f.bak else Torn, Holds(s))
    case CopyDone => Files(f.main, copied, Holds(s))
    case Finished => Files(Holds(s), copied, Missing)
  }

  function Load<T>(f: Files<T>, empty: T): Loaded<T> {
    match f.main
    case Missing => Loaded(empty, false)
    case Holds(s) => Loaded(s, false)
    case Torn => if f.bak.Holds? then Loaded(f.bak.state, true) else Loaded(empty, false)
  }

  // ---------- the code ----------

  class StateDir<T> {
    var main: File<T>
    var bak: File<T>
    var tmp: File<T>

    constructor (f: Files<T>)
      ensures Contents() == f
    {
      main, bak, tmp := f.main, f.bak, f.tmp;
    }

    function Contents(): Files<T>
      reads this
    {
      Files(main, bak, tmp)
    }

    // `writeAtomic`, in a process that may die before any file operation, or halfway through a copy.
    method WriteAtomic(s: T) returns (reached: Point)
      modifies this
      ensures Contents() == Saved(old(Contents()), s, reached)
    {
      var diesBefore: int := *;
      tmp := Torn;
      if diesBefore == 0 {
        return TmpOpened;
      }
      tmp := Holds(s);
      if diesBefore == 1 {
        return TmpWritten;
      }
      if main != Missing {
        bak := Torn;
        if diesBefore == 2 {
          return CopyBegun;
        }
        bak := main;
      }
      if diesBefore == 3 {
        return CopyDone;
      }
      main, tmp := tmp, Missing;
      return Finished;
    }

    // `loadStateFrom`: the first of the two files that parses, the state file set aside if it does not.
    method LoadStateFrom(empty: T) returns (loaded: Loaded<T>)
      modifies this
      ensures loaded == Load(old(Contents()), empty)
      ensures Contents() == old(Contents()).(main := if old(main).Torn? then Missing else old(main))
    {
      match main {
        case Missing => loaded := Loaded(empty, false);
        case Holds(s) => loaded := Loaded(s, false);
        case Torn =>
          main := Missing;
          match bak {
            case Holds(s) => loaded := Loaded(s, true);
            case _ => loaded := Loaded(empty, false);
          }
      }
    }
  }

  // ---------- saving is atomic ----------

  datatype Save<+T> = Save(state: T, reached: Point)

  function AfterSaves<T>(f: Files<T>, saves: seq<Save<T>>): Files<T> {
    if saves == [] then f
    else
      var last := saves[|saves| - 1];
      Saved(AfterSaves(f, saves[..|saves| - 1]), last.state, last.reached)
  }

  // Loading gives the state file's state if it parses, and if it does not, its backup's; with no state file, or nothing
  // that parses, it starts empty, whatever the backup holds.
  lemma LoadsExactly<T>(f: Files<T>, empty: T)
    ensures Load(f, empty).fromBackup <==> f.main == Torn && f.bak.Holds?
    ensures Load(f, empty).state ==
      if f.main.Holds? then f.main.state else if f.main == Torn && f.bak.Holds? then f.bak.state else empty
  {
  }

  // The states of the saves that finished.
  function FinishedStates<T>(saves: seq<Save<T>>): seq<T> {
    if saves == [] then []
    else
      var last := saves[|saves| - 1];
      FinishedStates(saves[..|saves| - 1]) + if last.reached.Finished? then [last.state] else []
  }

  // However many saves die and wherever, the state file holds the last save that finished, whole.
  lemma {:induction false} LoadsTheLastFinishedSave<T>(f: Files<T>, saves: seq<Save<T>>, empty: T)
    requires !f.main.Torn?
    ensures var done := FinishedStates(saves);
      Load(AfterSaves(f, saves), empty) == if done == [] then Load(f, empty) else Loaded(done[|done| - 1], false)
    ensures !AfterSaves(f, saves).main.Torn?
  {
    if saves != [] {
      LoadsTheLastFinishedSave(f, saves[..|saves| - 1], empty);
    }
  }

  // If the state file is damaged from outside after a finished save, the backup is what it held one save before.
  lemma BackupIsOneSaveBehind<T>(f: Files<T>, saves: seq<Save<T>>, last: T, empty: T)
    requires !f.main.Torn? && AfterSaves(f, saves).main.Holds?
    ensures var damaged := Saved(AfterSaves(f, saves), last, Finished).(main := Torn);
      Load(damaged, empty) == Loaded(Load(AfterSaves(f, saves), empty).state, true) && damaged.tmp.Missing?
  {
  }

  // How far the last save came that copied the state file to its backup, or died in that copy.
  function LastCopy<T>(f: Files<T>, saves: seq<Save<T>>): Option<Point> {
    if saves == [] then None
    else
      var before, last := saves[..|saves| - 1], saves[|saves| - 1].reached;
      if !last.TmpOpened? && !last.TmpWritten? && !AfterSaves(f, before).main.Missing? then Some(last)
      else LastCopy(f, before)
  }

  // Over any saves, damage to the state file loses both files if and only if the last save that reached the copy died
  // in it, or there was neither a copy nor a backup to begin with.
  lemma {:induction false} DamageLosesBothExactly<T>(f: Files<T>, saves: seq<Save<T>>, empty: T)
    requires !f.main.Torn?
    ensures
      var damaged := AfterSaves(f, saves).(main := Torn);
      !Load(damaged, empty).fromBackup <==>
        match LastCopy(f, saves)
        case Some(reached) => reached.CopyBegun?
        case None => !f.bak.Holds?
  {
    if saves != [] {
      var before := saves[..|saves| - 1];
      DamageLosesBothExactly(f, before, empty);
      LoadsTheLastFinishedSave(f, before, empty);
    }
  }
}
