/**
 Running post-install scripts: grouped by the root partition they run in, each group inside a mounted
 system that is released before the next one is mounted.
 */
module PostInstall {
  import opened Options

  type Path = seq<string>

  datatype Script = Script(name: string, root: int)
  datatype Target = Target(number: int, device: string)
  datatype Run = Run(root: Target, first: nat, scripts: seq<Script>)

  // ----- grouping the scripts ----------------------------------------------------------------------

  function FindTarget(restored: seq<Target>, number: int): (found: Option<Target>)
    ensures found.None? <==> forall i :: 0 <= i < |restored| ==> restored[i].number != number
    ensures found.Some? ==> found.value.number == number && found.value in restored
  {
    if restored == [] then None
    else if restored[0].number == number then Some(restored[0]) else FindTarget(restored[1..], number)
  }

  function EndOf(run: Run): nat {
    run.first + |run.scripts|
  }

  /** The run is the scripts from its first one to its end, all of one restored root. */
  ghost predicate RunFits(scripts: seq<Script>, restored: seq<Target>, run: Run) {
    && run.first < EndOf(run) <= |scripts| && run.scripts == scripts[run.first..EndOf(run)]
    && FindTarget(restored, run.root.number) == Some(run.root)
    && forall i :: run.first <= i < EndOf(run) ==> scripts[i].root == run.root.number
  }

  /** The runs cut the first `end` scripts into pieces, each with one root, neighbours with two. */
  ghost predicate Grouped(scripts: seq<Script>, restored: seq<Target>, runs: seq<Run>, end: nat) {
    && (runs == [] <==> end == 0)
    && (runs != [] ==> runs[0].first == 0 && EndOf(runs[|runs| - 1]) == end)
    && (forall k :: 0 <= k < |runs| ==> RunFits(scripts, restored, runs[k]))
    && forall j, k :: 0 <= j < k < |runs| && k == j + 1 ==>
         runs[k].first == EndOf(runs[j]) && runs[j].root.number != runs[k].root.number
  }

  /** The end of the longest stretch from `from` on with one root. */
  method Stretch(scripts: seq<Script>, from: nat) returns (end: nat)
    requires from < |scripts|
    ensures from < end <= |scripts|
    ensures forall i :: from <= i < end ==> scripts[i].root == scripts[from].root
    ensures end < |scripts| ==> scripts[end].root != scripts[from].root
  {
    end := from + 1;
    while end < |scripts| && scripts[end - 1].root == scripts[end].root
      invariant from < end <= |scripts|
      invariant forall i :: from <= i < end ==> scripts[i].root == scripts[from].root
    {
      end := end + 1;
    }
  }

  predicate AllRestored(scripts: seq<Script>, restored: seq<Target>, end: nat)
    requires end <= |scripts|
  {
    forall i :: 0 <= i < end ==> FindTarget(restored, scripts[i].root).Some?
  }

  /** The run that starts at `first`, unless its root was not restored. */
  method OneRun(scripts: seq<Script>, restored: seq<Target>, first: nat) returns (run: Option<Run>, end: nat)
    requires first < |scripts|
    ensures first < end <= |scripts| && (end < |scripts| ==> scripts[end - 1].root != scripts[end].root)
    ensures run.None? ==> !AllRestored(scripts, restored, |scripts|)
    ensures run.Some? ==> run.value.first == first && EndOf(run.value) == end && RunFits(scripts, restored, run.value)
  {
    end := Stretch(scripts, first);
    var root := FindTarget(restored, scripts[first].root);
    run := if root.None? then None else Some(Run(root.value, first, scripts[first..end]));
  }

  /** The first `end` scripts are grouped, all of them restored, and the next one starts a new run. */
  ghost predicate Cut(scripts: seq<Script>, restored: seq<Target>, runs: seq<Run>, end: nat)
    requires end <= |scripts|
  {
    && Grouped(scripts, restored, runs, end) && AllRestored(scripts, restored, end)
    && (0 < end < |scripts| ==> scripts[end - 1].root != scripts[end].root)
  }

  /** Groups the scripts; it fails exactly when some script's root was not restored. */
  method Runs(scripts: seq<Script>, restored: seq<Target>) returns (runs: Option<seq<Run>>)
    ensures runs.Some? <==> AllRestored(scripts, restored, |scripts|)
    ensures runs.Some? ==> Grouped(scripts, restored, runs.value, |scripts|)
  {
    var found: seq<Run>, first := [], 0;
    while first < |scripts|
      invariant 0 <= first <= |scripts| && Cut(scripts, restored, found, first)
    {
      var run, end := OneRun(scripts, restored, first);
      if run.None? {
        return None;
      }
      OneRunMore(scripts, restored, found, first, run.value, end);
      found, first := found + [run.value], end;
    }
    runs := Some(found);
  }

  lemma OneRunMore(scripts: seq<Script>, restored: seq<Target>, runs: seq<Run>, first: nat, run: Run, end: nat)
    requires first < end <= |scripts| && Cut(scripts, restored, runs, first)
    requires run.first == first && EndOf(run) == end && RunFits(scripts, restored, run)
    requires end < |scripts| ==> scripts[end - 1].root != scripts[end].root
    ensures Cut(scripts, restored, runs + [run], end)
  {
    GroupedMore(scripts, restored, runs, first, run, end);
  }

  lemma GroupedMore(scripts: seq<Script>, restored: seq<Target>, runs: seq<Run>, first: nat, run: Run, end: nat)
    requires first < end <= |scripts| && Grouped(scripts, restored, runs, first)
    requires run.first == first && EndOf(run) == end && RunFits(scripts, restored, run)
    requires 0 < first ==> scripts[first - 1].root != scripts[first].root
    ensures Grouped(scripts, restored, runs + [run], end)
  {
    var longer := runs + [run];
    if runs != [] {
      var last := runs[|runs| - 1];
      assert RunFits(scripts, restored, last) && EndOf(last) == first;
      assert scripts[first - 1].root == last.root.number && scripts[first].root == run.root.number;
    }
  }

  // ----- the machine -------------------------------------------------------------------------------

  /** `Listed` is a look at the mount table: what it found at and below the root, oldest first, if it could
      be read. */
  datatype Event =
    | Mounted(source: string, path: Path)
    | Ran(script: nat, ok: bool)
    | Listed(found: Option<seq<Path>>)
    | Unmounting(path: Path)

  /** How far a trace has got with its systems: none is mounted, one is and has mounted `tracked`, or one
      is being undone and the paths `left` are still to be unmounted, in that order. */
  datatype Phase = Closed | Open(tracked: seq<Path>) | Undoing(left: seq<Path>)

  /** The mounts to undo, newest first: all that were found, or at least the tracked ones. */
  function ToUndo(found: Option<seq<Path>>, tracked: seq<Path>): seq<Path> {
    Reversed(if found.Some? then found.value else tracked)
  }

  function StillToUndo(left: seq<Path>): Phase {
    if left == [] then Closed else Undoing(left)
  }

  /** What may happen next. A system starts with the mount of its root. It mounts inside that root and runs
      scripts until the mount table is looked at; after that, everything found is unmounted, each mount once
      and newest first, before anything else happens. */
  function After(root: Path, phase: Phase, event: Event): Option<Phase> {
    match phase
    case Closed => if event.Mounted? && event.path == root then Some(Open([root])) else None
    case Open(tracked) =>
      (match event
       case Mounted(_, path) => if path == root then None else Some(Open(tracked + [path]))
       case Ran(_, _) => Some(phase)
       case Listed(found) => Some(StillToUndo(ToUndo(found, tracked)))
       case Unmounting(_) => None)
    case Undoing(left) =>
      if event.Unmounting? && left != [] && event.path == left[0] then Some(StillToUndo(left[1..])) else None
  }

  /** Where a trace has got to, unless something in it happened that may not. */
  function PhaseOf(root: Path, trace: seq<Event>): Option<Phase> {
    if trace == [] then Some(Closed)
    else
      var before := PhaseOf(root, trace[..|trace| - 1]);
      if before.None? then None else After(root, before.value, trace[|trace| - 1])
  }

  lemma PhaseAfter(root: Path, trace: seq<Event>, event: Event)
    requires PhaseOf(root, trace).Some?
    ensures PhaseOf(root, trace + [event]) == After(root, PhaseOf(root, trace).value, event)
  {
    assert (trace + [event])[..|trace|] == trace;
  }

  lemma {:induction false} PrefixesHavePhases(root: Path, trace: seq<Event>, k: nat)
    requires k <= |trace| && PhaseOf(root, trace).Some?
    ensures PhaseOf(root, trace[..k]).Some?
  {
    if k < |trace| {
      PrefixesHavePhases(root, trace[..|trace| - 1], k);
      assert trace[..|trace| - 1][..k] == trace[..k];
    } else {
      assert trace[..k] == trace;
    }
  }

  lemma PhaseStep(root: Path, trace: seq<Event>, k: nat)
    requires k < |trace| && PhaseOf(root, trace).Some?
    ensures PhaseOf(root, trace[..k]).Some? && PhaseOf(root, trace[..k + 1]).Some?
    ensures PhaseOf(root, trace[..k + 1]) == After(root, PhaseOf(root, trace[..k]).value, trace[k])
  {
    PrefixesHavePhases(root, trace, k);
    PrefixesHavePhases(root, trace, k + 1);
    assert trace[..k + 1][..k] == trace[..k];
  }

  /** A root is mounted only while no system is: there is never more than one. Scripts run only inside one. */
  lemma OneSystemAtATime(root: Path, trace: seq<Event>, k: nat)
    requires k < |trace| && PhaseOf(root, trace).Some?
    ensures trace[k].Mounted? && trace[k].path == root ==> PhaseOf(root, trace[..k]) == Some(Closed)
    ensures trace[k].Ran? ==> PhaseOf(root, trace[..k]).Some? && PhaseOf(root, trace[..k]).value.Open?
  {
    PhaseStep(root, trace, k);
  }

  /** The mount number `k` is undone by the block of unmounts that follows the look `j` at the table. */
  ghost predicate UndoneAt(root: Path, trace: seq<Event>, k: nat, j: nat) {
    k < j < |trace| && trace[k].Mounted? && trace[j].Listed?
    && var phase := PhaseOf(root, trace[..j]);
       && phase.Some? && phase.value.Open? && trace[k].path in phase.value.tracked
       && var mounts := if trace[j].found.Some? then trace[j].found.value else phase.value.tracked;
          && UnmountsBackwards(trace, j + 1, j + 1 + |mounts|, mounts)
          && PhaseOf(root, trace[..j + 1 + |mounts|]) == Some(Closed)
  }

  /** From `first` on, each of the mounts is unmounted once, the newest first. */
  ghost predicate UnmountsBackwards(trace: seq<Event>, first: nat, end: nat, mounts: seq<Path>) {
    end == first + |mounts| <= |trace|
    && forall e :: first <= e < end ==> trace[e] == Unmounting(mounts[end - 1 - e])
  }

  lemma BackwardsMeans(mounts: seq<Path>) returns (block: seq<Event>)
    ensures block == Unmountings(Reversed(mounts)) && |block| == |mounts|
    ensures forall i :: 0 <= i < |block| ==> block[i] == Unmounting(mounts[|mounts| - 1 - i])
  {
    block := Unmountings(Reversed(mounts));
  }

  lemma BlockIsBackwards(trace: seq<Event>, first: nat, end: nat, mounts: seq<Path>, block: seq<Event>)
    requires end == first + |mounts| <= |trace| && trace[first..end] == block && |block| == |mounts|
    requires forall i :: 0 <= i < |block| ==> block[i] == Unmounting(mounts[|mounts| - 1 - i])
    ensures UnmountsBackwards(trace, first, end, mounts)
  {
    forall e | first <= e < end ensures trace[e] == Unmounting(mounts[end - 1 - e]) {
      assert trace[e] == block[e - first];
    }
  }

  /** From an open system on, a closed trace looks at the table before anything is unmounted. */
  lemma {:induction false} NextLook(root: Path, trace: seq<Event>, e: nat, path: Path) returns (j: nat)
    requires e <= |trace| && PhaseOf(root, trace) == Some(Closed)
    requires PhaseOf(root, trace[..e]).Some? && PhaseOf(root, trace[..e]).value.Open?
    requires path in PhaseOf(root, trace[..e]).value.tracked
    ensures e <= j < |trace| && trace[j].Listed? && PhaseOf(root, trace[..j]).Some?
    ensures PhaseOf(root, trace[..j]).value.Open? && path in PhaseOf(root, trace[..j]).value.tracked
    decreases |trace| - e
  {
    assert trace[..|trace|] == trace;
    if e == |trace| {
      assert false;
    } else if trace[e].Listed? {
      j := e;
    } else {
      PhaseStep(root, trace, e);
      j := NextLook(root, trace, e + 1, path);
    }
  }

  /** What is left to undo is what the trace unmounts next. */
  lemma {:induction false} LeftIsUnmounted(root: Path, trace: seq<Event>, e: nat, left: seq<Path>, end: nat)
    requires e <= |trace| && PhaseOf(root, trace) == Some(Closed) && end == e + |left|
    requires PhaseOf(root, trace[..e]) == Some(StillToUndo(left))
    ensures end <= |trace| && trace[e..end] == Unmountings(left)
    ensures PhaseOf(root, trace[..end]) == Some(Closed)
    decreases |left|
  {
    if left != [] {
      NextIsUnmounted(root, trace, e, left);
      LeftIsUnmounted(root, trace, e + 1, left[1..], end);
      UnmountingsStep(trace, e, left, end);
    }
  }

  lemma NextIsUnmounted(root: Path, trace: seq<Event>, e: nat, left: seq<Path>)
    requires e <= |trace| && PhaseOf(root, trace) == Some(Closed) && left != []
    requires PhaseOf(root, trace[..e]) == Some(Undoing(left))
    ensures e < |trace| && trace[e] == Unmounting(left[0])
    ensures PhaseOf(root, trace[..e + 1]) == Some(StillToUndo(left[1..]))
  {
    assert trace[..|trace|] == trace;
    if e < |trace| {
      PhaseStep(root, trace, e);
    }
  }

  lemma UnmountingsStep(trace: seq<Event>, e: nat, left: seq<Path>, end: nat)
    requires left != [] && end == e + |left| <= |trace| && trace[e] == Unmounting(left[0])
    requires trace[e + 1..end] == Unmountings(left[1..])
    ensures trace[e..end] == Unmountings(left)
  {
    assert trace[e..end] == [trace[e]] + trace[e + 1..end];
  }

  function Standing(mounted: seq<Path>): Phase {
    if mounted == [] then Closed else Open(mounted)
  }

  lemma Opens(root: Path, trace: seq<Event>, mounted: seq<Path>, source: string, relative: Path)
    requires PhaseOf(root, trace) == Some(Standing(mounted)) && (mounted == [] <==> relative == [])
    ensures PhaseOf(root, trace + [Mounted(source, root + relative)]) == Some(Standing(mounted + [root + relative]))
  {
    PhaseAfter(root, trace, Mounted(source, root + relative));
    if relative == [] {
      assert root + relative == root && mounted + [root] == [root];
    } else {
      assert |root + relative| > |root|;
    }
  }

  lemma {:induction false} Undoes(root: Path, looked: seq<Event>, left: seq<Path>, i: nat)
    requires i <= |left| && PhaseOf(root, looked) == Some(StillToUndo(left))
    ensures PhaseOf(root, looked + Unmountings(left[..i])) == Some(StillToUndo(left[i..]))
  {
    if i == 0 {
      assert looked + Unmountings(left[..i]) == looked && left[0..] == left;
    } else {
      Undoes(root, looked, left, i - 1);
      UndoesOne(root, looked + Unmountings(left[..i - 1]), left, i - 1);
      UnmountingsMore(looked, left, i - 1);
    }
  }

  lemma UndoesOne(root: Path, trace: seq<Event>, left: seq<Path>, i: nat)
    requires i < |left| && PhaseOf(root, trace) == Some(StillToUndo(left[i..]))
    ensures PhaseOf(root, trace + [Unmounting(left[i])]) == Some(StillToUndo(left[i + 1..]))
  {
    PhaseAfter(root, trace, Unmounting(left[i]));
    assert left[i..][1..] == left[i + 1..];
  }

  /** Looking at the table and unmounting all there is to undo closes the system. */
  lemma UndoingCloses(root: Path, trace: seq<Event>, tracked: seq<Path>, found: Option<seq<Path>>)
    requires PhaseOf(root, trace) == Some(Open(tracked))
    ensures PhaseOf(root, trace + [Listed(found)] + Unmountings(ToUndo(found, tracked))) == Some(Closed)
  {
    var left := ToUndo(found, tracked);
    PhaseAfter(root, trace, Listed(found));
    Undoes(root, trace + [Listed(found)], left, |left|);
    assert left[..|left|] == left && left[|left|..] == [];
  }

  lemma IsUndone(root: Path, trace: seq<Event>, k: nat, j: nat, tracked: seq<Path>)
    requires k < j < |trace| && trace[k].Mounted? && trace[j].Listed? && PhaseOf(root, trace) == Some(Closed)
    requires PhaseOf(root, trace[..j]) == Some(Open(tracked)) && trace[k].path in tracked
    ensures UndoneAt(root, trace, k, j)
  {
    var left := ToUndo(trace[j].found, tracked);
    var end := j + 1 + |left|;
    LookLeaves(root, trace, j, tracked);
    LeftIsUnmounted(root, trace, j + 1, left, end);
    BlockUndoes(root, trace, k, j, tracked, left, end);
  }

  lemma BlockUndoes(root: Path, trace: seq<Event>, k: nat, j: nat, tracked: seq<Path>, left: seq<Path>, end: nat)
    requires k < j < end <= |trace| && trace[k].Mounted? && trace[j].Listed? && trace[k].path in tracked
    requires left == ToUndo(trace[j].found, tracked) && end == j + 1 + |left|
    requires PhaseOf(root, trace[..j]) == Some(Open(tracked)) && PhaseOf(root, trace[..end]) == Some(Closed)
    requires trace[j + 1..end] == Unmountings(left)
    ensures UndoneAt(root, trace, k, j)
  {
    var mounts := if trace[j].found.Some? then trace[j].found.value else tracked;
    var block := BackwardsMeans(mounts);
    BlockIsBackwards(trace, j + 1, end, mounts, block);
  }

  lemma LookLeaves(root: Path, trace: seq<Event>, j: nat, tracked: seq<Path>)
    requires j < |trace| && trace[j].Listed? && PhaseOf(root, trace) == Some(Closed)
    requires PhaseOf(root, trace[..j]) == Some(Open(tracked))
    ensures PhaseOf(root, trace[..j + 1]) == Some(StillToUndo(ToUndo(trace[j].found, tracked)))
  {
    PhaseStep(root, trace, j);
  }

  /** Once no system is mounted, every mount has been undone: after it the mount table was looked at while
      its system was open, and what was to undo was unmounted at once, each once and newest first. */
  lemma MountsAreUndone(root: Path, trace: seq<Event>, k: nat)
    requires k < |trace| && PhaseOf(root, trace) == Some(Closed) && trace[k].Mounted?
    ensures exists j :: UndoneAt(root, trace, k, j)
  {
    OpenAfterMount(root, trace, k);
    var j := NextLook(root, trace, k + 1, trace[k].path);
    IsUndone(root, trace, k, j, PhaseOf(root, trace[..j]).value.tracked);
  }

  lemma OpenAfterMount(root: Path, trace: seq<Event>, k: nat)
    requires k < |trace| && PhaseOf(root, trace).Some? && trace[k].Mounted?
    ensures var phase := PhaseOf(root, trace[..k + 1]);
      phase.Some? && phase.value.Open? && trace[k].path in phase.value.tracked
  {
    PhaseStep(root, trace, k);
  }

  /** The mounts at and below the root directory, oldest first. Operation number `k` fails when
      `fails(k)`; a recursive bind brings further mounts, and a script leaves what `leaves` says. */
  class Machine {
    const root: Path
    const fails: nat -> bool
    const brings: nat -> seq<Path>
    const leaves: nat -> seq<Path>
    const readable: nat -> bool
    var clock: nat
    var inside: seq<Path>
    ghost var trace: seq<Event>
    ghost var ran: seq<(nat, bool)>

    constructor (root: Path, fails: nat -> bool, brings: nat -> seq<Path>, leaves: nat -> seq<Path>,
                 readable: nat -> bool)
      ensures this.root == root && this.fails == fails && this.brings == brings && this.leaves == leaves
      ensures this.readable == readable && clock == 0 && inside == [] && trace == []
      ensures ran == []
    {
      this.root, this.fails, this.brings, this.leaves, this.readable := root, fails, brings, leaves, readable;
      clock, inside, trace, ran := 0, [], [], [];
    }

    method MountAt(source: string, path: Path) returns (ok: bool)
      modifies `clock, `inside, `trace
      ensures ok ==> trace == old(trace) + [Mounted(source, path)] && old(inside) + [path] <= inside
      ensures !ok ==> trace == old(trace) && inside == old(inside)
    {
      ok := !fails(clock);
      if ok {
        inside := inside + [path] + brings(clock);
        trace := trace + [Mounted(source, path)];
      }
      clock := clock + 1;
    }

    method Execute(script: nat) returns (ok: bool)
      modifies `clock, `inside, `trace, `ran
      ensures trace == old(trace) + [Ran(script, ok)] && ran == old(ran) + [(script, ok)]
    {
      ok := !fails(clock);
      inside := leaves(clock);
      trace, ran := trace + [Ran(script, ok)], ran + [(script, ok)];
      clock := clock + 1;
    }

    /** The mount table, if it can be read. */
    method ListMounts() returns (found: Option<seq<Path>>)
      modifies `clock, `trace
      ensures found == if readable(old(clock)) then Some(inside) else None
      ensures trace == old(trace) + [Listed(found)]
    {
      found := if readable(clock) then Some(inside) else None;
      clock := clock + 1;
      trace := trace + [Listed(found)];
    }

    /** Where the newest mount at that path is, or the number of mounts. */
    method Newest(path: Path) returns (at: nat)
      ensures at <= |inside| && (at < |inside| ==> inside[at] == path)
      ensures at == |inside| ==> path !in inside
      ensures forall i :: at < i < |inside| ==> inside[i] != path
    {
      at := |inside|;
      while at > 0
        invariant 0 <= at <= |inside| && forall i :: at <= i < |inside| ==> inside[i] != path
      {
        if inside[at - 1] == path {
          at := at - 1;
          return;
        }
        at := at - 1;
      }
      at := |inside|;
    }

    /** Unmounts the newest mount at that path; when that fails, detaches it if that works. */
    method Unmount(path: Path) returns (ok: bool)
      modifies `clock, `inside, `trace
      ensures trace == old(trace) + [Unmounting(path)]
      ensures |inside| <= |old(inside)|
      ensures ok && old(inside) != [] && old(inside)[|old(inside)| - 1] == path ==>
                inside == old(inside)[..|old(inside)| - 1]
      ensures old(inside) == [] ==> inside == []
    {
      trace := trace + [Unmounting(path)];
      var at := Newest(path);
      ok := at < |inside| && !fails(clock);
      var detached := at < |inside| && !fails(clock + 1);
      clock := clock + 2;
      if ok || detached {
        inside := inside[..at] + inside[at + 1..];
      }
    }

    /** Unmounts one path after the other, whatever fails. */
    method UnmountAll(paths: seq<Path>) returns (ok: bool)
      modifies `clock, `inside, `trace
      ensures trace == old(trace) + Unmountings(paths)
      ensures ok && paths == Reversed(old(inside)) ==> inside == []
    {
      ok := true;
      var i := 0;
      while i < |paths|
        invariant 0 <= i <= |paths| && trace == old(trace) + Unmountings(paths[..i])
        invariant ok && paths == Reversed(old(inside)) ==> inside == old(inside)[..|old(inside)| - i]
      {
        ghost var before := trace;
        UnmountingsMore(old(trace), paths, i);
        var unmounted := Unmount(paths[i]);
        assert trace == before + [Unmounting(paths[i])];
        ok := ok && unmounted;
        i := i + 1;
      }
      assert paths[..i] == paths;
    }
  }

  function Reversed<T>(items: seq<T>): (reversed: seq<T>)
    ensures |reversed| == |items|
    ensures forall i :: 0 <= i < |items| ==> reversed[i] == items[|items| - 1 - i]
  {
    if items == [] then [] else Reversed(items[1..]) + [items[0]]
  }

  /** No script ran in between. */
  ghost predicate Quiet(before: seq<Event>, after: seq<Event>) {
    before <= after && forall e :: |before| <= e < |after| ==> !after[e].Ran?
  }

  /** What is mounted at the root, by the newest such mount. */
  function RootOf(trace: seq<Event>, root: Path): Option<string> {
    if trace == [] then None
    else
      var last := trace[|trace| - 1];
      if last.Mounted? && last.path == root then Some(last.source) else RootOf(trace[..|trace| - 1], root)
  }

  /** Every script ran while its own root partition was what was mounted at the root. */
  ghost predicate InOwnRoots(scripts: seq<Script>, restored: seq<Target>, root: Path, trace: seq<Event>) {
    forall e :: 0 <= e < |trace| && trace[e].Ran? ==>
      && trace[e].script < |scripts|
      && var target := FindTarget(restored, scripts[trace[e].script].root);
         target.Some? && RootOf(trace[..e], root) == Some(target.value.device)
  }

  lemma QuietKeepsRoots(scripts: seq<Script>, restored: seq<Target>, root: Path, before: seq<Event>, after: seq<Event>)
    requires InOwnRoots(scripts, restored, root, before) && Quiet(before, after)
    ensures InOwnRoots(scripts, restored, root, after)
  {
    forall e | 0 <= e < |after| && after[e].Ran?
      ensures after[e].script < |scripts|
      ensures var target := FindTarget(restored, scripts[after[e].script].root);
        target.Some? && RootOf(after[..e], root) == Some(target.value.device)
    {
      assert before[e] == after[e] && before[..e] == after[..e];
    }
  }

  lemma RanInItsRoot(scripts: seq<Script>, restored: seq<Target>, root: Path, trace: seq<Event>, i: nat, ok: bool)
    requires InOwnRoots(scripts, restored, root, trace) && i < |scripts|
    requires FindTarget(restored, scripts[i].root).Some?
    requires RootOf(trace, root) == Some(FindTarget(restored, scripts[i].root).value.device)
    ensures InOwnRoots(scripts, restored, root, trace + [Ran(i, ok)])
    ensures RootOf(trace + [Ran(i, ok)], root) == RootOf(trace, root)
  {
    var longer := trace + [Ran(i, ok)];
    assert longer[..|trace|] == trace;
    assert forall e :: 0 <= e < |trace| ==> longer[e] == trace[e] && longer[..e] == trace[..e];
  }

  lemma UnmountingsMore(trace: seq<Event>, paths: seq<Path>, i: nat)
    requires i < |paths|
    ensures trace + Unmountings(paths[..i]) + [Unmounting(paths[i])] == trace + Unmountings(paths[..i + 1])
  {
  }

  function Unmountings(paths: seq<Path>): seq<Event> {
    seq(|paths|, i requires 0 <= i < |paths| => Unmounting(paths[i]))
  }

  // ----- a mounted system --------------------------------------------------------------------------

  datatype Planned = Planned(target: Path, device: string)

  class MountedSystem {
    const machine: Machine
    var mounted: seq<Path>

    constructor (machine: Machine)
      ensures this.machine == machine && mounted == []
    {
      this.machine, mounted := machine, [];
    }

    ghost predicate Valid()
      reads this, machine
    {
      PhaseOf(machine.root, machine.trace) == Some(Standing(mounted))
    }

    method Attach(source: string, relative: Path) returns (ok: bool)
      requires Valid() && (mounted == [] <==> relative == [])
      modifies `mounted, machine
      ensures Valid() && machine.ran == old(machine.ran)
      ensures ok ==> mounted == old(mounted) + [machine.root + relative]
                     && machine.trace == old(machine.trace) + [Mounted(source, machine.root + relative)]
      ensures !ok ==> mounted == old(mounted) && machine.trace == old(machine.trace)
    {
      ok := machine.MountAt(source, machine.root + relative);
      if ok {
        mounted := mounted + [machine.root + relative];
        Opens(machine.root, old(machine.trace), old(mounted), source, relative);
      }
    }

    /** Undoes every mount, newest first: all that are found below the root, or at least the tracked
        ones. A second call does nothing. */
    method Release() returns (ok: bool)
      requires Valid()
      modifies `mounted, machine
      ensures mounted == [] && Valid() && machine.ran == old(machine.ran)
      ensures (old(mounted) == [] ==>
                ok && machine.trace == old(machine.trace) && machine.inside == old(machine.inside)
                && machine.clock == old(machine.clock))
      ensures (old(mounted) != [] ==>
                var found := if machine.readable(old(machine.clock)) then Some(old(machine.inside)) else None;
                machine.trace == old(machine.trace) + [Listed(found)] + Unmountings(ToUndo(found, old(mounted))))
      ensures ok && old(mounted) != [] && machine.readable(old(machine.clock)) ==> machine.inside == []
      ensures Quiet(old(machine.trace), machine.trace)
    {
      if mounted == [] {
        return true;
      }
      var tracked := mounted;
      mounted := [];
      var found := machine.ListMounts();
      UndoingCloses(machine.root, old(machine.trace), tracked, found);
      ok := machine.UnmountAll(Reversed(if found.Some? then found.value else tracked));
    }

    /** Mounts a root and all it needs inside. Whatever fails, nothing stays mounted by this system. */
    static method Mount(machine: Machine, root: Target, planned: Option<seq<Planned>>)
      returns (system: Option<MountedSystem>)
      requires PhaseOf(machine.root, machine.trace) == Some(Closed) && AllBelow(planned)
      modifies machine
      ensures machine.ran == old(machine.ran) && Quiet(old(machine.trace), machine.trace)
      ensures system.None? ==> PhaseOf(machine.root, machine.trace) == Some(Closed)
      ensures (system.Some? ==>
                && fresh(system.value) && system.value.machine == machine && system.value.Valid()
                && system.value.mounted != []
                && planned.Some? && system.value.mounted == PathsOf(Expected(machine.root, root, planned.value))
                && machine.trace == old(machine.trace) + Expected(machine.root, root, planned.value)
                && RootOf(machine.trace, machine.root) == Some(root.device))
    {
      var made := new MountedSystem(machine);
      var ok := made.AttachAll(root, planned);
      if ok {
        RootIsMounted(machine.root, root, planned.value, old(machine.trace));
        return Some(made);
      }
      ghost var attached := machine.trace;
      var released := made.Release();
      system := None;
    }

    /** Planned targets lie below the root. */
    static ghost predicate AllBelow(planned: Option<seq<Planned>>) {
      planned.Some? ==> forall p :: p in planned.value ==> p.target != []
    }

    /** The mounts of a system in their order: the root, what its fstab plans on other partitions, and
        the three kernel filesystems. */
    static function Expected(root: Path, target: Target, planned: seq<Planned>): seq<Event> {
      [Mounted(target.device, root + [])] + ExpectedInside(root, target, planned) + Kernel(root)
    }

    static function ExpectedInside(root: Path, target: Target, planned: seq<Planned>): seq<Event> {
      if planned == [] then []
      else
        var last := planned[|planned| - 1];
        ExpectedInside(root, target, planned[..|planned| - 1])
        + if last.device == target.device then [] else [Mounted(last.device, root + last.target)]
    }

    static function PathsOf(mounts: seq<Event>): seq<Path> {
      seq(|mounts|, i requires 0 <= i < |mounts| => if mounts[i].Mounted? then mounts[i].path else [])
    }

    /** The mounts inside the root are those planned on other partitions, each once and in their order: `at`
        are their numbers. */
    static ghost predicate MountsOthers(root: Path, target: Target, planned: seq<Planned>, at: seq<nat>,
                                        mounts: seq<Event>) {
      && |at| == |mounts|
      && (forall j :: 0 <= j < |at| ==>
            && at[j] < |planned| && planned[at[j]].device != target.device
            && mounts[j] == Mounted(planned[at[j]].device, root + planned[at[j]].target))
      && (forall j, k :: 0 <= j < k < |at| ==> at[j] < at[k])
      && forall i: nat :: i < |planned| && planned[i].device != target.device ==> i in at
    }

    static lemma {:induction false} InsideMeans(root: Path, target: Target, planned: seq<Planned>) returns (at: seq<nat>)
      ensures MountsOthers(root, target, planned, at, ExpectedInside(root, target, planned))
    {
      if planned == [] {
        at := [];
      } else {
        var before, last := planned[..|planned| - 1], planned[|planned| - 1];
        at := InsideMeans(root, target, before);
        at := InsideMore(root, target, before, last, at, ExpectedInside(root, target, before));
        assert planned == before + [last];
      }
    }

    static lemma InsideMore(root: Path, target: Target, before: seq<Planned>, last: Planned, at: seq<nat>,
                            mounts: seq<Event>) returns (more: seq<nat>)
      requires MountsOthers(root, target, before, at, mounts)
      ensures MountsOthers(root, target, before + [last], more,
                mounts + if last.device == target.device then [] else [Mounted(last.device, root + last.target)])
    {
      var planned := before + [last];
      assert forall i :: 0 <= i < |before| ==> planned[i] == before[i];
      if last.device == target.device {
        more := at;
      } else {
        more := at + [|before| as nat];
        assert more[|at|] == |before| && forall i: nat :: i in at ==> i in more;
      }
    }

    /** A system is its root, the planned mounts on other partitions, and the kernel's three filesystems. */
    static lemma ExpectedMeans(root: Path, target: Target, planned: seq<Planned>)
      returns (at: seq<nat>, inside: seq<Event>)
      ensures MountsOthers(root, target, planned, at, inside)
      ensures Expected(root, target, planned)
           == [Mounted(target.device, root)] + inside
            + [Mounted("proc", root + ["proc"]), Mounted("sys", root + ["sys"]), Mounted("dev", root + ["dev"])]
    {
      inside := ExpectedInside(root, target, planned);
      at := InsideMeans(root, target, planned);
      assert root + [] == root;
    }

    static lemma {:induction false} RootStays(root: Path, trace: seq<Event>, more: seq<Event>)
      requires forall i :: 0 <= i < |more| ==> more[i].Mounted? && more[i].path != root
      ensures RootOf(trace + more, root) == RootOf(trace, root)
    {
      if more == [] {
        assert trace + more == trace;
      } else {
        var last := |more| - 1;
        RootStays(root, trace, more[..last]);
        assert (trace + more)[..|trace| + last] == trace + more[..last];
      }
    }

    static lemma {:induction false} InsideIsBelow(root: Path, target: Target, planned: seq<Planned>)
      requires forall p :: p in planned ==> p.target != []
      ensures forall m :: m in ExpectedInside(root, target, planned) ==> m.Mounted? && |m.path| > |root|
    {
      if planned != [] {
        InsideIsBelow(root, target, planned[..|planned| - 1]);
        assert planned[|planned| - 1] in planned;
      }
    }

    static lemma RootIsMounted(root: Path, target: Target, planned: seq<Planned>, trace: seq<Event>)
      requires forall p :: p in planned ==> p.target != []
      ensures RootOf(trace + Expected(root, target, planned), root) == Some(target.device)
    {
      var first := trace + [Mounted(target.device, root + [])];
      var more := ExpectedInside(root, target, planned)
                + Kernel(root);
      assert root + [] == root && first[..|trace|] == trace;
      InsideIsBelow(root, target, planned);
      forall i | 0 <= i < |more| ensures more[i].Mounted? && more[i].path != root {
        if i < |ExpectedInside(root, target, planned)| {
          assert more[i] in ExpectedInside(root, target, planned);
        }
        assert |more[i].path| > |root|;
      }
      RootStays(root, first, more);
      assert trace + Expected(root, target, planned) == first + more;
    }

    static lemma PathsOfMore(mounts: seq<Event>, last: Event)
      requires last.Mounted?
      ensures PathsOf(mounts + [last]) == PathsOf(mounts) + [last.path]
    {
    }

    static function Kernel(root: Path): seq<Event> {
      [Mounted("proc", root + ["proc"]), Mounted("sys", root + ["sys"]), Mounted("dev", root + ["dev"])]
    }

    static lemma InParts(root: Path, target: Target, planned: seq<Planned>, before: seq<Event>)
      ensures before + [Mounted(target.device, root + [])] + ExpectedInside(root, target, planned) + Kernel(root)
           == before + Expected(root, target, planned)
      ensures [root + []] + PathsOf(ExpectedInside(root, target, planned)) + PathsOf(Kernel(root))
           == PathsOf(Expected(root, target, planned))
    {
      var first, inside := [Mounted(target.device, root + [])], ExpectedInside(root, target, planned);
      assert Expected(root, target, planned) == first + inside + Kernel(root);
      assert PathsOf(first) == [root + []];
    }

    method AttachAll(root: Target, planned: Option<seq<Planned>>) returns (ok: bool)
      requires Valid() && mounted == [] && AllBelow(planned)
      modifies `mounted, machine
      ensures Valid() && machine.ran == old(machine.ran) && Quiet(old(machine.trace), machine.trace)
      ensures ok ==> mounted != []
      ensures (ok ==>
                planned.Some? && mounted == PathsOf(Expected(machine.root, root, planned.value))
                && machine.trace == old(machine.trace) + Expected(machine.root, root, planned.value))
    {
      ok := Attach(root.device, []);
      if !ok || planned.None? {
        return false;
      }
      ok := AttachPlanned(root, planned.value);
      if !ok {
        return;
      }
      ok := AttachKernel();
      InParts(machine.root, root, planned.value, old(machine.trace));
    }

    /** What the fstab plans, apart from the root's own partition. */
    method AttachPlanned(root: Target, planned: seq<Planned>) returns (ok: bool)
      requires Valid() && mounted != [] && AllBelow(Some(planned))
      modifies `mounted, machine
      ensures Valid() && machine.ran == old(machine.ran) && Quiet(old(machine.trace), machine.trace)
      ensures (ok ==>
                mounted == old(mounted) + PathsOf(ExpectedInside(machine.root, root, planned))
                && machine.trace == old(machine.trace) + ExpectedInside(machine.root, root, planned))
    {
      ghost var done: seq<Event> := [];
      ok := true;
      var n := 0;
      while n < |planned|
        invariant 0 <= n <= |planned| && ok && Valid() && mounted != [] && machine.ran == old(machine.ran)
        invariant done == ExpectedInside(machine.root, root, planned[..n]) && forall i :: 0 <= i < |done| ==> done[i].Mounted?
        invariant mounted == old(mounted) + PathsOf(done) && machine.trace == old(machine.trace) + done
      {
        var next := planned[n];
        assert planned[..n + 1][..n] == planned[..n];
        if next.device != root.device {
          assert next in planned;
          ok := Attach(next.device, next.target);
          if !ok {
            return;
          }
          var event := Mounted(next.device, machine.root + next.target);
          PathsOfMore(done, event);
          done := done + [event];
        }
        n := n + 1;
      }
      assert planned[..n] == planned;
    }

    /** The kernel's filesystems. */
    method AttachKernel() returns (ok: bool)
      requires Valid() && mounted != []
      modifies `mounted, machine
      ensures Valid() && machine.ran == old(machine.ran) && Quiet(old(machine.trace), machine.trace)
      ensures ok ==> mounted == old(mounted) + PathsOf(Kernel(machine.root))
      ensures ok ==> machine.trace == old(machine.trace) + Kernel(machine.root)
    {
      ok := Attach("proc", ["proc"]);
      if !ok {
        return;
      }
      ok := Attach("sys", ["sys"]);
      if !ok {
        return;
      }
      ok := Attach("dev", ["dev"]);
    }
  }

  // ----- running the scripts -----------------------------------------------------------------------

  /** The scripts ran one after the other from the first on, and only the last one may have failed. */
  ghost predicate InOrder(ran: seq<(nat, bool)>) {
    && (forall i :: 0 <= i < |ran| ==> ran[i].0 == i)
    && forall i :: 0 <= i < |ran| - 1 ==> ran[i].1
  }

  ghost predicate AllSucceeded(ran: seq<(nat, bool)>) {
    InOrder(ran) && forall i :: 0 <= i < |ran| ==> ran[i].1
  }

  /** The system is open, the device is what is mounted at its root, and all scripts ran in their own roots. */
  ghost predicate Serving(scripts: seq<Script>, restored: seq<Target>, root: Path, trace: seq<Event>, device: string,
                          phase: Phase) {
    && InOwnRoots(scripts, restored, root, trace) && RootOf(trace, root) == Some(device)
    && PhaseOf(root, trace) == Some(phase) && phase.Open?
  }

  lemma ServesOneMore(scripts: seq<Script>, restored: seq<Target>, root: Path, trace: seq<Event>, device: string,
                      phase: Phase, i: nat, ok: bool)
    requires Serving(scripts, restored, root, trace, device, phase) && i < |scripts|
    requires FindTarget(restored, scripts[i].root).Some? && FindTarget(restored, scripts[i].root).value.device == device
    ensures Serving(scripts, restored, root, trace + [Ran(i, ok)], device, phase)
  {
    RanInItsRoot(scripts, restored, root, trace, i, ok);
    PhaseAfter(root, trace, Ran(i, ok));
  }

  /** Runs the scripts of one run until one fails. */
  method RunScripts(machine: Machine, run: Run, ghost scripts: seq<Script>, ghost restored: seq<Target>,
                    ghost phase: Phase)
    returns (ok: bool)
    requires AllSucceeded(machine.ran) && |machine.ran| == run.first
    requires RunFits(scripts, restored, run)
    requires Serving(scripts, restored, machine.root, machine.trace, run.root.device, phase)
    modifies machine
    ensures InOrder(machine.ran) && run.first <= |machine.ran| <= run.first + |run.scripts|
    ensures ok ==> AllSucceeded(machine.ran) && |machine.ran| == run.first + |run.scripts|
    ensures !ok ==> machine.ran != [] && !machine.ran[|machine.ran| - 1].1
    ensures Serving(scripts, restored, machine.root, machine.trace, run.root.device, phase)
  {
    ok := true;
    var i := 0;
    while i < |run.scripts|
      invariant 0 <= i <= |run.scripts| && ok
      invariant AllSucceeded(machine.ran) && |machine.ran| == run.first + i
      invariant Serving(scripts, restored, machine.root, machine.trace, run.root.device, phase)
    {
      ghost var before := machine.trace;
      ok := machine.Execute(run.first + i);
      ServesOneMore(scripts, restored, machine.root, before, run.root.device, phase, run.first + i, ok);
      if !ok {
        return;
      }
      i := i + 1;
    }
  }

  /** One run: mounted, run, and released whatever became of the scripts. The second release is the one
      that dropping the system makes. */
  method RunOne(machine: Machine, run: Run, planned: Option<seq<Planned>>, ghost scripts: seq<Script>,
                ghost restored: seq<Target>)
    returns (ok: bool)
    requires PhaseOf(machine.root, machine.trace) == Some(Closed) && AllSucceeded(machine.ran) && |machine.ran| == run.first
    requires RunFits(scripts, restored, run) && MountedSystem.AllBelow(planned)
    requires InOwnRoots(scripts, restored, machine.root, machine.trace)
    modifies machine
    ensures PhaseOf(machine.root, machine.trace) == Some(Closed)
    ensures InOrder(machine.ran) && run.first <= |machine.ran| <= run.first + |run.scripts|
    ensures ok ==> AllSucceeded(machine.ran) && |machine.ran| == run.first + |run.scripts|
    ensures InOwnRoots(scripts, restored, machine.root, machine.trace)
    ensures ok && (forall k :: machine.readable(k)) ==> machine.inside == []
  {
    ghost var start := machine.trace;
    var system := MountedSystem.Mount(machine, run.root, planned);
    QuietKeepsRoots(scripts, restored, machine.root, start, machine.trace);
    if system.None? {
      return false;
    }
    var ran := RunScripts(machine, run, scripts, restored, Open(system.value.mounted));
    ghost var ended := machine.trace;
    var unmounted := system.value.Release();
    QuietKeepsRoots(scripts, restored, machine.root, ended, machine.trace);
    var again := system.value.Release();
    ok := ran && unmounted;
  }

  /** One run after the other. */
  method RunEach(machine: Machine, runs: seq<Run>, plans: nat -> Option<seq<Planned>>, ghost scripts: seq<Script>,
                 ghost restored: seq<Target>)
    returns (ok: bool)
    requires Grouped(scripts, restored, runs, |scripts|)
    requires PhaseOf(machine.root, machine.trace) == Some(Closed) && machine.ran == [] && machine.inside == []
    requires InOwnRoots(scripts, restored, machine.root, machine.trace)
    requires forall k :: MountedSystem.AllBelow(plans(k))
    modifies machine
    ensures PhaseOf(machine.root, machine.trace) == Some(Closed)
    ensures InOrder(machine.ran) && |machine.ran| <= |scripts|
    ensures InOwnRoots(scripts, restored, machine.root, machine.trace)
    ensures ok ==> AllSucceeded(machine.ran) && |machine.ran| == |scripts|
    ensures ok && (forall k :: machine.readable(k)) ==> machine.inside == []
  {
    var k := 0;
    while k < |runs|
      invariant 0 <= k <= |runs| && PhaseOf(machine.root, machine.trace) == Some(Closed) && AllSucceeded(machine.ran)
      invariant |machine.ran| == if k < |runs| then runs[k].first else |scripts|
      invariant InOwnRoots(scripts, restored, machine.root, machine.trace)
      invariant (forall c :: machine.readable(c)) ==> machine.inside == []
    {
      assert RunFits(scripts, restored, runs[k]);
      ok := RunOne(machine, runs[k], plans(k), scripts, restored);
      if !ok {
        return;
      }
      k := k + 1;
    }
    ok := true;
  }

  /** Runs all scripts in their groups. The scripts that ran are the first ones, in order, each in its own
      root, and only the last of them may have failed. On every way out each system has been undone. */
  method RunAll(machine: Machine, scripts: seq<Script>, restored: seq<Target>, plans: nat -> Option<seq<Planned>>)
    returns (ok: bool)
    requires machine.ran == [] && machine.inside == [] && machine.trace == []
    requires forall k :: MountedSystem.AllBelow(plans(k))
    modifies machine
    ensures PhaseOf(machine.root, machine.trace) == Some(Closed)
    ensures InOrder(machine.ran) && |machine.ran| <= |scripts|
    ensures InOwnRoots(scripts, restored, machine.root, machine.trace)
    ensures ok ==> AllRestored(scripts, restored, |scripts|)
    ensures ok ==> AllSucceeded(machine.ran) && |machine.ran| == |scripts|
    ensures !AllRestored(scripts, restored, |scripts|) ==> !ok && machine.ran == [] && machine.trace == []
    ensures ok && (forall k :: machine.readable(k)) ==> machine.inside == []
  {
    if scripts == [] {
      return true;
    }
    var runs := Runs(scripts, restored);
    if runs.None? {
      return false;
    }
    ok := RunEach(machine, runs.value, plans, scripts, restored);
  }

}
