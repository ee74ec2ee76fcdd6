/**
  `distribution/store.py`: immutable state directories and the pointers ACTIVE and
  LAST_KNOWN_GOOD.  The file system is a value; many processes work on it in interleaved small
  steps and each may crash between two of them, or in the middle of a write.
*/
module TwoSlotStores {
  import opened Wrappers

  type Bytes = seq<bv8>
  type Directory = map<string, Bytes>

  datatype File = File(name: string, content: Bytes)

  datatype Pointer = Active | LastKnownGood

  /** A temporary pointer file; a torn one was never completely written. */
  datatype Temporary = Torn | Whole(target: string)

  datatype FileSystem = FileSystem(
    states: map<string, Directory>, pointers: map<Pointer, string>,
    temporaries: map<(Pointer, nat), Temporary>)

  predicate PlainName(name: string) { name != "" && '/' !in name && name != "." && name != ".." }

  /** `read_pointer`, for well-formed pointer files. */
  function ReadPointer(fs: FileSystem, p: Pointer): Option<string> {
    if p in fs.pointers && fs.pointers[p] in fs.states then Some(fs.pointers[p]) else None
  }

  // ----- one process, without crashes

  /** The directory after the first n files. */
  function Written(files: seq<File>, n: nat): Directory
    requires n <= |files|
  {
    if n == 0 then map[] else Written(files, n - 1)[files[n - 1].name := files[n - 1].content]
  }

  lemma WrittenNext(files: seq<File>, n: nat)
    requires n < |files|
    ensures Written(files, n + 1) == Written(files, n)[files[n].name := files[n].content]
  {
  }

  predicate DistinctNames(files: seq<File>) { forall i, j :: 0 <= i < j < |files| ==> files[i].name != files[j].name }

  lemma {:induction false} WrittenKeys(files: seq<File>, n: nat)
    requires n <= |files|
    ensures forall name :: name in Written(files, n) <==> exists i :: 0 <= i < n && files[i].name == name
    ensures DistinctNames(files) ==> forall i :: 0 <= i < n ==> Written(files, n)[files[i].name] == files[i].content
  {
    if n > 0 {
      WrittenKeys(files, n - 1);
      assert files[n - 1].name in Written(files, n);
    }
  }

  function PutDirectory(fs: FileSystem, name: string, dir: Directory): FileSystem {
    fs.(states := fs.states[name := dir])
  }

  class TwoSlotStore {
    var fs: FileSystem

    constructor ()
      ensures fs == FileSystem(map[], map[], map[])
    {
      fs := FileSystem(map[], map[], map[]);
    }

    /** The files one after the other, each exclusively created; a bad or repeated name stops it. */
    method WriteFiles(name: string, files: seq<File>) returns (ok: bool)
      requires name in fs.states && fs.states[name] == map[]
      modifies this
      ensures exists n :: 0 <= n <= |files| && fs == PutDirectory(old(fs), name, Written(files, n)) && (ok ==> n == |files|)
      ensures ok <==> DistinctNames(files) && forall i :: 0 <= i < |files| ==> PlainName(files[i].name)
    {
      assert fs == PutDirectory(fs, name, Written(files, 0));
      hide Written;
      for n := 0 to |files|
        invariant fs == PutDirectory(old(fs), name, Written(files, n))
        invariant forall i :: 0 <= i < n ==> PlainName(files[i].name)
        invariant DistinctNames(files[..n])
      {
        WrittenKeys(files, n);
        if !PlainName(files[n].name) { return false; }
        if files[n].name in fs.states[name] {
          assert exists i :: 0 <= i < n && files[i].name == files[n].name;
          return false;
        }
        WrittenNext(files, n);
        fs := PutDirectory(fs, name, fs.states[name][files[n].name := files[n].content]);
        assert files[..n + 1] == files[..n] + [files[n]];
      }
      assert files[..|files|] == files;
      ok := true;
    }

    /** Writes the files, manifest last, into a new directory; any refusal leaves the pointers alone. */
    method Stage(name: string, files: seq<File>) returns (ok: bool)
      modifies this
      ensures fs.pointers == old(fs.pointers) && fs.temporaries == old(fs.temporaries)
      ensures ok <==> name !in old(fs.states) && DistinctNames(files) && forall i :: 0 <= i < |files| ==> PlainName(files[i].name)
      ensures ok ==> fs.states == old(fs.states)[name := Written(files, |files|)]
      ensures name in old(fs.states) ==> fs == old(fs)
      ensures name !in old(fs.states) ==> exists n :: 0 <= n <= |files| && fs.states == old(fs.states)[name := Written(files, n)]
      ensures forall other :: other in old(fs.states) ==> other in fs.states && fs.states[other] == old(fs.states)[other]
    {
      hide Written;
      hide PlainName;
      hide DistinctNames;
      if name in fs.states { return false; }
      fs := PutDirectory(fs, name, map[]);
      ok := WriteFiles(name, files);
    }

    /** `_switch_pointer`: refused when a temporary file of this process is in the way. */
    method SwitchPointer(p: Pointer, target: string, pid: nat) returns (ok: bool)
      modifies this
      ensures ok <==> (p, pid) !in old(fs.temporaries)
      ensures fs == if ok then old(fs).(pointers := old(fs).pointers[p := target]) else old(fs)
    {
      if (p, pid) in fs.temporaries { return false; }
      var before := fs.temporaries;
      fs := fs.(temporaries := fs.temporaries[(p, pid) := Whole(target)]);
      fs := fs.(pointers := fs.pointers[p := target], temporaries := fs.temporaries - {(p, pid)});
      assert fs.temporaries == before;
      ok := true;
    }

    /**
      A healthy candidate becomes ACTIVE and the previous one LAST_KNOWN_GOOD; whatever else
      happens, `read_pointer("ACTIVE")` is what it was before, and no state changes.
    */
    method Activate(candidate: string, healthy: bool, pid: nat) returns (ok: bool)
      modifies this
      ensures fs.states == old(fs.states) && fs.temporaries == old(fs.temporaries)
      ensures candidate !in old(fs.states) ==> fs == old(fs)
      ensures ReadPointer(old(fs), Active) == None ==> ReadPointer(fs, LastKnownGood) == ReadPointer(old(fs), LastKnownGood)
      ensures ReadPointer(fs, LastKnownGood) in {ReadPointer(old(fs), LastKnownGood), ReadPointer(old(fs), Active)}
      ensures ok ==> healthy && candidate in fs.states && ReadPointer(fs, Active) == Some(candidate)
      ensures ok && ReadPointer(old(fs), Active).Some? ==> ReadPointer(fs, LastKnownGood) == ReadPointer(old(fs), Active)
      ensures !ok ==> ReadPointer(fs, Active) == ReadPointer(old(fs), Active)
      ensures (healthy && candidate in old(fs.states)
               && (Active, pid) !in old(fs.temporaries) && (LastKnownGood, pid) !in old(fs.temporaries)) ==> ok
    {
      if candidate !in fs.states { return false; }
      var previous := ReadPointer(fs, Active);
      if previous.Some? {
        var saved := SwitchPointer(LastKnownGood, previous.value, pid);
        if !saved { return false; }
      }
      var switched := SwitchPointer(Active, candidate, pid);
      if !switched { return false; }
      if !healthy {
        if previous.Some? {
          var restored := SwitchPointer(Active, previous.value, pid);
        } else {
          fs := fs.(pointers := fs.pointers - {Active});
        }
        return false;
      }
      ok := true;
    }
  }

  // ----- many processes, small steps, crashes

  datatype Move = Point(p: Pointer, target: string) | Remove(p: Pointer)

  /**
    Staging has written `done` files and, if `open`, created the next one; `health` is what the health
    check will say when the same process goes on to activate.  Activating has moves to make.
  */
  datatype Task =
    | Staging(name: string, files: seq<File>, done: nat, open: bool, health: Option<bool>)
    | Activating(moves: seq<Move>, phase: nat)

  datatype System = System(
    fs: FileSystem, tasks: map<nat, Task>,
    sealed: map<string, Directory>)        // what each completely staged state was meant to hold

  /** A client installs: it stages and, once that is done, activates.  `activate` alone takes any directory there is. */
  datatype Action =
    | StartStage(pid: nat, name: string, files: seq<File>)
    | StartInstall(pid: nat, name: string, files: seq<File>, healthy: bool)
    | StartActivate(pid: nat, candidate: string, healthy: bool)
    | Advance(pid: nat)
    | Crash(pid: nat, torn: Bytes)

  predicate Enabled(s: System, a: Action) {
    match a
    case StartStage(pid, _, _) => pid !in s.tasks
    case StartInstall(pid, _, _, _) => pid !in s.tasks
    case StartActivate(pid, candidate, _) => pid !in s.tasks && candidate in s.fs.states
    case Advance(pid) => pid in s.tasks
    case Crash(pid, _) => pid in s.tasks
  }

  function MovesFor(previous: Option<string>, candidate: string, healthy: bool): seq<Move> {
    (if previous.Some? then [Point(LastKnownGood, previous.value)] else [])
    + [Point(Active, candidate)]
    + (if healthy then [] else if previous.Some? then [Point(Active, previous.value)] else [Remove(Active)])
  }

  function End(s: System, pid: nat): System { s.(tasks := s.tasks - {pid}) }

  function BeginStaging(s: System, pid: nat, name: string, files: seq<File>, health: Option<bool>): System {
    if name in s.fs.states then s
    else s.(fs := s.fs.(states := s.fs.states[name := map[]]), tasks := s.tasks[pid := Staging(name, files, 0, false, health)])
  }

  function BeginActivating(s: System, pid: nat, candidate: string, healthy: bool): System {
    s.(tasks := s.tasks[pid := Activating(MovesFor(ReadPointer(s.fs, Active), candidate, healthy), 0)])
  }

  function AdvanceStaging(s: System, pid: nat, t: Task): System
    requires t.Staging?
  {
    if t.name !in s.fs.states then End(s, pid)
    else if t.done >= |t.files| then
      var sealed := End(s, pid).(sealed := s.sealed[t.name := s.fs.states[t.name]]);
      if t.health.Some? then BeginActivating(sealed, pid, t.name, t.health.value) else sealed
    else
      var File(file, content) := t.files[t.done];
      if !t.open then
        if !PlainName(file) || file in s.fs.states[t.name] then End(s, pid)
        else s.(fs := s.fs.(states := s.fs.states[t.name := s.fs.states[t.name][file := []]]),
                tasks := s.tasks[pid := t.(open := true)])
      else s.(fs := s.fs.(states := s.fs.states[t.name := s.fs.states[t.name][file := content]]),
              tasks := s.tasks[pid := t.(open := false, done := t.done + 1)])
  }

  function AdvanceActivating(s: System, pid: nat, t: Task): System
    requires t.Activating?
  {
    if t.moves == [] then End(s, pid)
    else match t.moves[0]
      case Remove(p) =>
        s.(fs := s.fs.(pointers := s.fs.pointers - {p}), tasks := s.tasks[pid := Activating(t.moves[1..], 0)])
      case Point(p, target) =>
        if t.phase == 0 then
          if (p, pid) in s.fs.temporaries then End(s, pid)
          else s.(fs := s.fs.(temporaries := s.fs.temporaries[(p, pid) := Torn]), tasks := s.tasks[pid := t.(phase := 1)])
        else if t.phase == 1 then
          s.(fs := s.fs.(temporaries := s.fs.temporaries[(p, pid) := Whole(target)]), tasks := s.tasks[pid := t.(phase := 2)])
        else if Renaming(s, pid, p) then
          s.(fs := s.fs.(pointers := s.fs.pointers[p := s.fs.temporaries[(p, pid)].target],
                         temporaries := s.fs.temporaries - {(p, pid)}),
             tasks := s.tasks[pid := Activating(t.moves[1..], 0)])
        else End(s, pid)
  }

  predicate Renaming(s: System, pid: nat, p: Pointer) { (p, pid) in s.fs.temporaries && s.fs.temporaries[(p, pid)].Whole? }

  function Do(s: System, a: Action): System
    requires Enabled(s, a)
  {
    match a
    case StartStage(pid, name, files) => BeginStaging(s, pid, name, files, None)
    case StartInstall(pid, name, files, healthy) => BeginStaging(s, pid, name, files, Some(healthy))
    case StartActivate(pid, candidate, healthy) => BeginActivating(s, pid, candidate, healthy)
    case Advance(pid) =>
      if s.tasks[pid].Staging? then AdvanceStaging(s, pid, s.tasks[pid]) else AdvanceActivating(s, pid, s.tasks[pid])
    case Crash(pid, torn) =>
      var t := s.tasks[pid];
      if t.Staging? && t.open && t.done < |t.files| && t.name in s.fs.states then
        End(s, pid).(fs := s.fs.(states := s.fs.states[t.name := s.fs.states[t.name][t.files[t.done].name := torn]]))
      else End(s, pid)
  }

  // ----- sealed states

  /** The sealed states are on disk as they were meant to be. */
  predicate SealedIntact(s: System) {
    forall name :: name in s.sealed ==> name in s.fs.states && s.fs.states[name] == s.sealed[name]
  }

  /** What a staging process has written so far. */
  ghost predicate StagingInv(s: System, pid: nat)
    requires pid in s.tasks
  {
    var t := s.tasks[pid];
    t.Staging? ==>
      && t.name in s.fs.states && t.name !in s.sealed && t.done <= |t.files|
      && (t.open ==> t.done < |t.files| && t.files[t.done].name !in Written(t.files, t.done))
      && s.fs.states[t.name] ==
           (if t.open then Written(t.files, t.done)[t.files[t.done].name := []] else Written(t.files, t.done))
  }

  ghost predicate Inv(s: System) {
    SealedIntact(s) && (forall pid :: pid in s.tasks ==> StagingInv(s, pid)) && DistinctStagings(s)
  }

  predicate DistinctStagings(s: System) {
    forall p, q :: p in s.tasks && q in s.tasks && p != q && s.tasks[p].Staging? && s.tasks[q].Staging?
                   ==> s.tasks[p].name != s.tasks[q].name
  }

  /** A step writes only into the directory of its own unfinished staging, or makes a new one. */
  lemma StatesStep(s: System, a: Action, name: string)
    requires Enabled(s, a) && name in s.fs.states
    requires a.pid in s.tasks && s.tasks[a.pid].Staging? ==> s.tasks[a.pid].name != name
    ensures name in Do(s, a).fs.states && Do(s, a).fs.states[name] == s.fs.states[name]
  {
    hide MovesFor;
    hide PlainName;
  }

  lemma SealedGrows(s: System, a: Action)
    requires Inv(s) && Enabled(s, a)
    ensures forall name :: name in s.sealed ==> name in Do(s, a).sealed && Do(s, a).sealed[name] == s.sealed[name]
    ensures forall name :: name in Do(s, a).sealed && name !in s.sealed ==>
              name in Do(s, a).fs.states && Do(s, a).fs.states[name] == Do(s, a).sealed[name]
  {
    if a.pid in s.tasks { assert StagingInv(s, a.pid); }
    hide MovesFor;
    hide PlainName;
  }

  lemma SealedStep(s: System, a: Action)
    requires Inv(s) && Enabled(s, a)
    ensures SealedIntact(Do(s, a))
    ensures forall name :: name in s.sealed ==> name in Do(s, a).sealed && Do(s, a).sealed[name] == s.sealed[name]
  {
    if a.pid in s.tasks { assert StagingInv(s, a.pid); }
    SealedGrows(s, a);
    forall name | name in s.sealed ensures name in Do(s, a).fs.states && Do(s, a).fs.states[name] == s.sealed[name] {
      StatesStep(s, a, name);
    }
    hide Do;
  }

  lemma OwnTaskStep(s: System, a: Action)
    requires Inv(s) && Enabled(s, a) && a.pid in Do(s, a).tasks
    ensures StagingInv(Do(s, a), a.pid)
  {
    if a.pid in s.tasks {
      assert StagingInv(s, a.pid);
      var t := s.tasks[a.pid];
      if t.Staging? && t.open { WrittenStep(t.files, t.done); }
    }
    hide MovesFor;
  }

  lemma WrittenStep(files: seq<File>, n: nat)
    requires n < |files|
    ensures Written(files, n)[files[n].name := []][files[n].name := files[n].content] == Written(files, n + 1)
  {
  }

  lemma OtherTaskFramed(s: System, a: Action, pid: nat)
    requires Enabled(s, a) && pid in Do(s, a).tasks && pid != a.pid
    ensures pid in s.tasks && Do(s, a).tasks[pid] == s.tasks[pid]
  {
    hide MovesFor;
    hide PlainName;
  }

  lemma NewlySealed(s: System, a: Action, name: string)
    requires Enabled(s, a) && name in Do(s, a).sealed && name !in s.sealed
    ensures a.pid in s.tasks && s.tasks[a.pid].Staging? && s.tasks[a.pid].name == name
  {
    hide MovesFor;
    hide PlainName;
  }

  lemma OtherTaskStep(s: System, a: Action, pid: nat)
    requires Inv(s) && Enabled(s, a) && pid in Do(s, a).tasks && pid != a.pid
    ensures StagingInv(Do(s, a), pid)
  {
    OtherTaskFramed(s, a, pid);
    assert StagingInv(s, pid);
    if s.tasks[pid].Staging? {
      StatesStep(s, a, s.tasks[pid].name);
      if s.tasks[pid].name in Do(s, a).sealed { NewlySealed(s, a, s.tasks[pid].name); }
    }
    hide Do;
  }

  lemma OwnStaging(s: System, a: Action)
    requires Inv(s) && Enabled(s, a) && a.pid in Do(s, a).tasks && Do(s, a).tasks[a.pid].Staging?
    ensures if a.pid in s.tasks then s.tasks[a.pid].Staging? && s.tasks[a.pid].name == Do(s, a).tasks[a.pid].name
            else Do(s, a).tasks[a.pid].name !in s.fs.states
  {
    hide MovesFor;
    hide PlainName;
  }

  lemma DistinctStep(s: System, a: Action)
    requires Inv(s) && Enabled(s, a)
    ensures DistinctStagings(Do(s, a))
  {
    var s' := Do(s, a);
    forall p, q | p in s'.tasks && q in s'.tasks && p != q && s'.tasks[p].Staging? && s'.tasks[q].Staging?
      ensures s'.tasks[p].name != s'.tasks[q].name
    {
      forall pid | pid in s.tasks ensures StagingInv(s, pid) {}
      if p != a.pid { OtherTaskFramed(s, a, p); } else { OwnStaging(s, a); }
      if q != a.pid { OtherTaskFramed(s, a, q); } else { OwnStaging(s, a); }
    }
    hide Do;
  }

  lemma DoKeepsInv(s: System, a: Action)
    requires Inv(s) && Enabled(s, a)
    ensures Inv(Do(s, a))
    ensures forall name :: name in s.sealed ==> name in Do(s, a).sealed && Do(s, a).sealed[name] == s.sealed[name]
  {
    SealedStep(s, a);
    DistinctStep(s, a);
    forall pid | pid in Do(s, a).tasks ensures StagingInv(Do(s, a), pid) {
      if pid == a.pid { OwnTaskStep(s, a); } else { OtherTaskStep(s, a, pid); }
    }
    hide Do;
    hide StagingInv;
  }

  /** A state is sealed only with every file of its staging, each with its full content. */
  lemma SealingIsComplete(s: System, pid: nat)
    requires Inv(s) && pid in s.tasks && s.tasks[pid].Staging?
    requires s.tasks[pid].name in Do(s, Advance(pid)).sealed
    ensures var t := s.tasks[pid];
            && Do(s, Advance(pid)).sealed[t.name] == Written(t.files, |t.files|)
            && t.done == |t.files|
  {
    assert StagingInv(s, pid);
    hide MovesFor;
  }

  // ----- runs

  ghost predicate IsRun(states: seq<System>, actions: seq<Action>) {
    && |states| == |actions| + 1
    && states[0] == System(FileSystem(map[], map[], map[]), map[], map[])
    && forall i :: 0 <= i < |actions| ==> Enabled(states[i], actions[i]) && states[i + 1] == Do(states[i], actions[i])
  }

  lemma {:induction false} RunInv(states: seq<System>, actions: seq<Action>, n: nat)
    requires IsRun(states, actions) && n < |states|
    ensures Inv(states[n])
  {
    hide Do;
    if n > 0 {
      RunInv(states, actions, n - 1);
      DoKeepsInv(states[n - 1], actions[n - 1]);
    }
  }

  lemma {:induction false} SealedForever(states: seq<System>, actions: seq<Action>, m: nat, n: nat, name: string)
    requires IsRun(states, actions) && m <= n < |states| && name in states[m].sealed
    ensures name in states[n].fs.states && states[n].fs.states[name] == states[m].sealed[name]
    ensures name in states[n].sealed && states[n].sealed[name] == states[m].sealed[name]
  {
    hide Do;
    hide StagingInv;
    if m < n {
      SealedForever(states, actions, m, n - 1, name);
      RunInv(states, actions, n - 1);
      DoKeepsInv(states[n - 1], actions[n - 1]);
    }
    RunInv(states, actions, n);
  }

  // ----- ACTIVE is complete exactly when only sealed states are switched to

  /** ACTIVE is absent or names a sealed state. */
  predicate ActiveComplete(s: System) { Active in s.fs.pointers ==> s.fs.pointers[Active] in s.sealed }

  /** The state to which this step switches ACTIVE, by its rename. */
  function SwitchesTo(s: System, a: Action): Option<string> {
    if a.Advance? && a.pid in s.tasks && s.tasks[a.pid].Activating? && s.tasks[a.pid].moves != [] && s.tasks[a.pid].phase >= 2
       && s.tasks[a.pid].moves[0].Point? && s.tasks[a.pid].moves[0].p == Active && Renaming(s, a.pid, Active)
    then Some(s.fs.temporaries[(Active, a.pid)].target) else None
  }

  lemma SwitchStep(s: System, a: Action)
    requires Enabled(s, a)
    ensures var before, after := s.fs.pointers, Do(s, a).fs.pointers;
            if SwitchesTo(s, a).Some? then Active in after && after[Active] == SwitchesTo(s, a).value && Do(s, a).sealed == s.sealed
            else Active in after ==> Active in before && after[Active] == before[Active]
  {
    hide MovesFor;
    hide PlainName;
  }

  /**
    Over every interleaving with crashes, whoever calls `activate` and with whatever directory: ACTIVE is
    complete at every point if and only if every switch of it was to a sealed state.
  */
  lemma {:induction false} ActiveCompleteIff(states: seq<System>, actions: seq<Action>, n: nat)
    requires IsRun(states, actions) && n < |states|
    ensures (forall m :: 0 <= m <= n ==> ActiveComplete(states[m]))
      <==> forall m :: 0 <= m < n && SwitchesTo(states[m], actions[m]).Some? ==> SwitchesTo(states[m], actions[m]).value in states[m].sealed
  {
    hide Do;
    hide SwitchesTo;
    if n > 0 {
      var k := n - 1;
      ActiveCompleteIff(states, actions, k);
      RunInv(states, actions, k);
      DoKeepsInv(states[k], actions[k]);
      SwitchStep(states[k], actions[k]);
      assert states[n] == Do(states[k], actions[k]);
      hide Inv;
    }
  }

  /** Pointers, temporary pointers and the moves still to make all name sealed states. */
  ghost predicate Trusted(s: System) {
    && (forall p :: p in s.fs.pointers ==> s.fs.pointers[p] in s.sealed)
    && (forall k :: k in s.fs.temporaries && s.fs.temporaries[k].Whole? ==> s.fs.temporaries[k].target in s.sealed)
    && (forall pid :: pid in s.tasks ==> MovesSealed(s, s.tasks[pid]))
  }

  predicate MovesSealed(s: System, t: Task) {
    t.Activating? ==> forall i :: 0 <= i < |t.moves| && t.moves[i].Point? ==> t.moves[i].target in s.sealed
  }

  /** A bare `activate` is given a completely staged state. */
  predicate Careful(s: System, a: Action) { a.StartActivate? ==> a.candidate in s.sealed }

  lemma PointersStep(s: System, a: Action)
    requires Inv(s) && Trusted(s) && Enabled(s, a)
    ensures forall p :: p in Do(s, a).fs.pointers ==> Do(s, a).fs.pointers[p] in s.sealed
  {
    hide Inv;
    hide PlainName;
    hide MovesFor;
    hide MovesSealed;
  }

  lemma TemporariesStep(s: System, a: Action)
    requires Inv(s) && Trusted(s) && Enabled(s, a)
    ensures forall k :: k in Do(s, a).fs.temporaries && Do(s, a).fs.temporaries[k].Whole? ==> Do(s, a).fs.temporaries[k].target in s.sealed
  {
    if a.pid in s.tasks { assert MovesSealed(s, s.tasks[a.pid]); }
    hide Inv;
    hide PlainName;
    hide MovesFor;
  }

  lemma MovesForSealed(s: System, candidate: string, healthy: bool)
    requires (forall p :: p in s.fs.pointers ==> s.fs.pointers[p] in s.sealed) && candidate in s.sealed
    ensures MovesSealed(s, Activating(MovesFor(ReadPointer(s.fs, Active), candidate, healthy), 0))
  {
  }

  lemma OwnMovesStep(s: System, a: Action)
    requires Inv(s) && Trusted(s) && Enabled(s, a) && Careful(s, a) && a.pid in Do(s, a).tasks
    ensures MovesSealed(Do(s, a), Do(s, a).tasks[a.pid])
  {
    if a.pid in s.tasks { assert MovesSealed(s, s.tasks[a.pid]); }
    if a.StartActivate? {
      MovesForSealed(s, a.candidate, a.healthy);
    } else if a.Advance? && s.tasks[a.pid].Staging? && s.tasks[a.pid].health.Some? {
      var t := s.tasks[a.pid];
      if t.name in s.fs.states && t.done >= |t.files| {
        MovesForSealed(End(s, a.pid).(sealed := s.sealed[t.name := s.fs.states[t.name]]), t.name, t.health.value);
      }
    }
    hide Inv;
    hide PlainName;
    hide MovesFor;
    hide ReadPointer;
  }

  lemma CarefulStep(s: System, a: Action)
    requires Inv(s) && Trusted(s) && Enabled(s, a) && Careful(s, a)
    ensures Trusted(Do(s, a))
  {
    SealedGrows(s, a);
    PointersStep(s, a);
    TemporariesStep(s, a);
    forall pid | pid in Do(s, a).tasks ensures MovesSealed(Do(s, a), Do(s, a).tasks[pid]) {
      if pid == a.pid {
        OwnMovesStep(s, a);
      } else {
        OtherTaskFramed(s, a, pid);
        assert MovesSealed(s, s.tasks[pid]);
      }
    }
    hide Do;
    hide Inv;
  }

  lemma {:induction false} CarefulRun(states: seq<System>, actions: seq<Action>, n: nat)
    requires IsRun(states, actions) && n < |states| && forall i :: 0 <= i < n ==> Careful(states[i], actions[i])
    ensures Trusted(states[n])
  {
    hide Do;
    hide Inv;
    if n > 0 {
      CarefulRun(states, actions, n - 1);
      RunInv(states, actions, n - 1);
      CarefulStep(states[n - 1], actions[n - 1]);
    }
  }

  /**
    When every bare `activate` is given a sealed state, ACTIVE is at every point of every interleaving with
    crashes absent or the name of a state whose files were all written before and never change after.
  */
  lemma ActiveIsComplete(states: seq<System>, actions: seq<Action>, m: nat, n: nat)
    requires IsRun(states, actions) && m <= n < |states| && Active in states[m].fs.pointers
    requires forall i :: 0 <= i < m ==> Careful(states[i], actions[i])
    ensures var name := states[m].fs.pointers[Active];
            && name in states[m].sealed && name in states[m].fs.states
            && states[m].fs.states[name] == states[m].sealed[name]
            && name in states[n].fs.states && states[n].fs.states[name] == states[m].fs.states[name]
  {
    hide Do;
    hide StagingInv;
    RunInv(states, actions, m);
    CarefulRun(states, actions, m);
    SealedForever(states, actions, m, n, states[m].fs.pointers[Active]);
  }

  /** Clients install and never call `activate` on anything else: for their runs nothing is assumed. */
  lemma InstallsAreComplete(states: seq<System>, actions: seq<Action>, m: nat, n: nat)
    requires IsRun(states, actions) && m <= n < |states| && Active in states[m].fs.pointers
    requires forall i :: 0 <= i < |actions| ==> !actions[i].StartActivate?
    ensures var name := states[m].fs.pointers[Active];
            && name in states[m].sealed && name in states[m].fs.states
            && states[m].fs.states[name] == states[m].sealed[name]
            && name in states[n].fs.states && states[n].fs.states[name] == states[m].fs.states[name]
  {
    ActiveIsComplete(states, actions, m, n);
  }

  // ----- a directory left half staged, activated by hand

  const HALF := [File("policy.json", [1])]

  function HalfStaged(): seq<Action> {
    [StartStage(1, "x", HALF), Advance(1), Crash(1, []), StartActivate(2, "x", true), Advance(2), Advance(2), Advance(2)]
  }

  predicate ActiveIsEmptied(s: System) {
    && Active in s.fs.pointers && s.fs.pointers[Active] == "x" && "x" !in s.sealed
    && "x" in s.fs.states && s.fs.states["x"] == map["policy.json" := []]
  }

  const EMPTIED: map<string, Directory> := map["x" := map["policy.json" := []]]

  lemma StagingStops()
    ensures var s1 := Do(System(FileSystem(map[], map[], map[]), map[], map[]), StartStage(1, "x", HALF));
            Enabled(s1, Advance(1)) && var s2 := Do(s1, Advance(1));
            Enabled(s2, Crash(1, [])) && Do(s2, Crash(1, [])) == System(FileSystem(EMPTIED, map[], map[]), map[], map[])
  {
    var s1 := Do(System(FileSystem(map[], map[], map[]), map[], map[]), StartStage(1, "x", HALF));
    assert PlainName("policy.json");
    hide PlainName;
    var s2 := Do(s1, Advance(1));
    assert s2.tasks[1] == Staging("x", HALF, 0, true, None);
    assert s2.fs.states == EMPTIED;
    var s3 := Do(s2, Crash(1, []));
    assert s3.tasks == map[];
    var emptied: Directory := map["policy.json" := []];
    assert emptied["policy.json" := []] == emptied;
    assert EMPTIED["x" := emptied] == EMPTIED;
    assert s3.fs.states == EMPTIED;
  }

  /** The source's `activate` accepts it, and ACTIVE then names a state with an empty policy. */
  lemma HalfStagedIsActivated()
    ensures exists states :: IsRun(states, HalfStaged()) && ActiveIsEmptied(states[7])
  {
    var actions := HalfStaged();
    StagingStops();
    var s0 := System(FileSystem(map[], map[], map[]), map[], map[]);
    var s1 := Do(s0, actions[0]);
    var s2 := Do(s1, actions[1]);
    var s3 := Do(s2, actions[2]);
    hide AdvanceStaging;
    hide BeginStaging;
    hide PlainName;
    var s4 := Do(s3, actions[3]);
    assert s4.tasks[2] == Activating([Point(Active, "x")], 0);
    var s5 := Do(s4, actions[4]);
    assert s5.tasks[2] == Activating([Point(Active, "x")], 1);
    var s6 := Do(s5, actions[5]);
    assert s6.tasks[2] == Activating([Point(Active, "x")], 2);
    var s7 := Do(s6, actions[6]);
    hide Do;
    var states := [s0, s1, s2, s3, s4, s5, s6, s7];
    assert IsRun(states, actions);
  }
}
