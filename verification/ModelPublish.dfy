/**
 * Publishing a stored model under a runtime path, by hard link or by copy through a temporary name, by any number of
 * processes at once. The file system is names on inodes; a process may stop for good between any two of its calls.
 */
module ModelPublish {
  import opened Options

  datatype Name = Source | Published | Temp(id: nat)

  /** Where one call of materialize stands. */
  datatype Process =
    | Checking(temp: nat)
    | Linking(temp: nat)
    | Creating(temp: nat)
    | Copying(temp: nat, inode: nat, done: nat)
    | Renaming(temp: nat)
    | Removing(temp: nat)

  /**
   * Names on inodes, what the inodes hold, the next inode to be made, the calls under way, the temporary names taken
   * so far, and whether some call has put its result in place.
   */
  datatype World = World(
    names: map<Name, nat>, data: map<nat, seq<int>>, next: nat, calls: map<nat, Process>, used: set<nat>, written: bool)

  datatype Action =
    | Begin(call: nat, temp: nat)
    | Step(call: nat, ok: bool, chunk: nat)
    | Die(call: nat)

  predicate Enabled(w: World, a: Action) {
    match a
    case Begin(c, _) => c !in w.calls
    case Step(c, _, _) => c in w.calls
    case Die(c) => c in w.calls
  }

  function Goto(w: World, c: nat, p: Process): World {
    w.(calls := w.calls[c := p])
  }

  function Leave(w: World, c: nat): World {
    w.(calls := w.calls - {c})
  }

  /** The published path and the stored file are the same inode already; a call that cannot look goes on. */
  predicate SameFile(w: World) {
    Source in w.names && Published in w.names && w.names[Source] == w.names[Published]
  }

  function Link(w: World, c: nat, t: nat, ok: bool): World {
    if ok && Source in w.names && Temp(t) !in w.names then
      Goto(w.(names := w.names[Temp(t) := w.names[Source]]), c, Renaming(t))
    else Goto(w, c, Creating(t))
  }

  /** Exclusive creation: it fails on a name that exists. */
  function Create(w: World, c: nat, t: nat, ok: bool): World {
    if ok && Source in w.names && Temp(t) !in w.names then
      Goto(w.(names := w.names[Temp(t) := w.next], data := w.data[w.next := []], next := w.next + 1),
           c, Copying(t, w.next, 0))
    else Goto(w, c, Removing(t))
  }

  /** What the stored file holds. */
  function Blob(w: World): seq<int> {
    if Source in w.names && w.names[Source] in w.data then w.data[w.names[Source]] else []
  }

  function Contents(w: World, i: nat): seq<int> {
    if i in w.data then w.data[i] else []
  }

  /** Some more bytes go through the open file; at the end it is closed. */
  function Copy(w: World, c: nat, t: nat, i: nat, done: nat, ok: bool, chunk: nat): World {
    if !ok then Goto(w, c, Removing(t))
    else if done >= |Blob(w)| then Goto(w, c, Renaming(t))
    else
      var end := if done + chunk <= |Blob(w)| then done + chunk else |Blob(w)|;
      Goto(w.(data := w.data[i := Contents(w, i) + Blob(w)[done..end]]), c, Copying(t, i, end))
  }

  /** Renaming between two links of one inode leaves both. */
  function Rename(w: World, c: nat, t: nat, ok: bool): World {
    if !ok || Temp(t) !in w.names then Goto(w, c, Removing(t))
    else if Published in w.names && w.names[Published] == w.names[Temp(t)] then Leave(w.(written := true), c)
    else Leave(w.(names := w.names[Published := w.names[Temp(t)]] - {Temp(t)}, written := true), c)
  }

  function Remove(w: World, c: nat, t: nat, ok: bool): World {
    Leave(if ok then w.(names := w.names - {Temp(t)}) else w, c)
  }

  function Apply(w: World, a: Action): World
    requires Enabled(w, a)
  {
    match a
    case Begin(c, t) => Goto(w, c, Checking(t)).(used := w.used + {t})
    case Die(c) => Leave(w, c)
    case Step(c, ok, chunk) =>
      match w.calls[c]
      case Checking(t) => if ok && SameFile(w) then Leave(w.(written := true), c) else Goto(w, c, Linking(t))
      case Linking(t) => Link(w, c, t, ok)
      case Creating(t) => Create(w, c, t, ok)
      case Copying(t, i, done) => Copy(w, c, t, i, done, ok, chunk)
      case Renaming(t) => Rename(w, c, t, ok)
      case Removing(t) => Remove(w, c, t, ok)
  }

  predicate Allowed(w: World, run: seq<Action>)
    decreases run
  {
    run == [] || (Enabled(w, run[0]) && Allowed(Apply(w, run[0]), run[1..]))
  }

  function After(w: World, run: seq<Action>): World
    requires Allowed(w, run)
    decreases run
  {
    if run == [] then w else After(Apply(w, run[0]), run[1..])
  }

  /** No call has begun; what the published path names, if anything, is from before. */
  ghost predicate Init(w: World, blob: seq<int>) {
    && Source in w.names && w.names[Source] in w.data && w.data[w.names[Source]] == blob
    && (forall n :: n in w.names ==> w.names[n] < w.next)
    && (forall t :: Temp(t) in w.names ==> t in w.used)
    && w.calls == map[] && !w.written
  }

  // ---------------------------------------------------------------------------------------------
  // The stored file is safe whatever the temporary names.

  /** The stored file is untouched, inodes under copy are younger, and two copies never share one. */
  predicate BlobInv(w: World, source: nat, blob: seq<int>) {
    && Source in w.names && w.names[Source] == source && source in w.data && w.data[source] == blob
    && source < w.next
    && (forall n :: n in w.names ==> w.names[n] < w.next)
    && (forall c :: c in w.calls && w.calls[c].Copying? ==> w.calls[c].inode != source && w.calls[c].inode < w.next)
  }

  lemma BlobMove(w: World, c: nat, p: Process, source: nat, blob: seq<int>)
    requires BlobInv(w, source, blob) && !p.Copying?
    ensures BlobInv(Goto(w, c, p), source, blob) && BlobInv(Leave(w, c), source, blob)
  {
  }

  lemma BlobLink(w: World, c: nat, t: nat, ok: bool, source: nat, blob: seq<int>)
    requires BlobInv(w, source, blob)
    ensures BlobInv(Link(w, c, t, ok), source, blob) && BlobInv(Create(w, c, t, ok), source, blob)
  {
  }

  lemma BlobCopy(w: World, c: nat, t: nat, i: nat, done: nat, ok: bool, chunk: nat, source: nat, blob: seq<int>)
    requires BlobInv(w, source, blob) && i != source && i < w.next
    ensures BlobInv(Copy(w, c, t, i, done, ok, chunk), source, blob)
  {
  }

  lemma BlobRename(w: World, c: nat, t: nat, ok: bool, source: nat, blob: seq<int>)
    requires BlobInv(w, source, blob)
    ensures BlobInv(Rename(w, c, t, ok), source, blob) && BlobInv(Remove(w, c, t, ok), source, blob)
  {
  }

  lemma BlobStep(w: World, a: Action, source: nat, blob: seq<int>)
    requires BlobInv(w, source, blob) && Enabled(w, a)
    ensures BlobInv(Apply(w, a), source, blob)
  {
    match a
    case Begin(c, t) => BlobMove(w, c, Checking(t), source, blob);
    case Die(c) => BlobMove(w, c, Checking(0), source, blob);
    case Step(c, ok, chunk) =>
      match w.calls[c]
      case Checking(t) => BlobMove(w, c, Linking(t), source, blob);
      case Linking(t) => BlobLink(w, c, t, ok, source, blob);
      case Creating(t) => BlobLink(w, c, t, ok, source, blob);
      case Copying(t, i, done) => BlobCopy(w, c, t, i, done, ok, chunk, source, blob);
      case Renaming(t) => BlobRename(w, c, t, ok, source, blob);
      case Removing(t) => BlobRename(w, c, t, ok, source, blob);
  }

  /** Over every run, also with temporary names used twice, the stored file keeps its inode and its bytes. */
  lemma {:induction false} BlobNeverChanges(w: World, run: seq<Action>, source: nat, blob: seq<int>)
    requires BlobInv(w, source, blob) && Allowed(w, run)
    ensures BlobInv(After(w, run), source, blob)
    decreases run
  {
    if run != [] {
      BlobStep(w, run[0], source, blob);
      BlobNeverChanges(Apply(w, run[0]), run[1..], source, blob);
    }
  }

  // ---------------------------------------------------------------------------------------------
  // The published path is whole when temporary names are not used twice.

  predicate Distinct(w: World, run: seq<Action>)
    requires Allowed(w, run)
    decreases run
  {
    run == [] || ((run[0].Begin? ==> run[0].temp !in w.used) && Distinct(Apply(w, run[0]), run[1..]))
  }

  predicate Whole(w: World, n: Name, blob: seq<int>) {
    n in w.names && w.names[n] in w.data && w.data[w.names[n]] == blob
  }

  /** What holds of a call that stands at `p`. */
  ghost predicate CallOk(w: World, p: Process, blob: seq<int>) {
    && p.temp in w.used
    && (p.Checking? || p.Linking? || p.Creating? ==> Temp(p.temp) !in w.names)
    && (p.Copying? ==>
          && Temp(p.temp) in w.names && w.names[Temp(p.temp)] == p.inode
          && p.inode in w.data && p.done <= |blob| && w.data[p.inode] == blob[..p.done]
          && forall n :: n in w.names && n != Temp(p.temp) ==> w.names[n] != p.inode)
    && (p.Renaming? ==> Whole(w, Temp(p.temp), blob))
  }

  ghost predicate Inv(w: World, source: nat, blob: seq<int>) {
    && BlobInv(w, source, blob)
    && (forall t :: Temp(t) in w.names ==> t in w.used)
    && (forall c :: c in w.calls ==> CallOk(w, w.calls[c], blob))
    && (forall c, d :: c in w.calls && d in w.calls && c != d ==> w.calls[c].temp != w.calls[d].temp)
    && (w.written ==> Whole(w, Published, blob))
  }

  /** Calls other than `c` are where they were; only the temporary name `t` of `c` and the published path may change. */
  predicate OnlyFor(w: World, w': World, c: nat, t: nat) {
    && (forall d :: d in w'.calls && d != c ==> d in w.calls && w'.calls[d] == w.calls[d])
    && (forall n :: n in w.names && n != Temp(t) && n != Published ==> n in w'.names && w'.names[n] == w.names[n])
    && (forall n :: n in w'.names && n != Temp(t) && n != Published ==> n in w.names)
    && w'.used == w.used
  }

  /** A call that is not concerned stays right if its inodes keep their contents and its name gets no company. */
  lemma Unconcerned(w: World, w': World, p: Process, t: nat, blob: seq<int>)
    requires CallOk(w, p, blob) && p.temp != t && w.used <= w'.used
    requires forall n :: n in w.names && n != Temp(t) && n != Published ==> n in w'.names && w'.names[n] == w.names[n]
    requires forall n :: n in w'.names && n != Temp(t) && n != Published ==> n in w.names
    requires Temp(p.temp) in w.names && w.names[Temp(p.temp)] in w.data ==>
      w.names[Temp(p.temp)] in w'.data && w'.data[w.names[Temp(p.temp)]] == w.data[w.names[Temp(p.temp)]]
    requires p.Copying? ==> forall n :: n in w'.names && (n == Temp(t) || n == Published) ==> w'.names[n] != p.inode
    ensures CallOk(w', p, blob)
  {
  }

  lemma BeginKeeps(w: World, c: nat, t: nat, source: nat, blob: seq<int>)
    requires Inv(w, source, blob) && c !in w.calls && t !in w.used
    ensures Inv(Apply(w, Begin(c, t)), source, blob)
  {
    var w' := Apply(w, Begin(c, t));
    BlobStep(w, Begin(c, t), source, blob);
    forall d | d in w'.calls
      ensures CallOk(w', w'.calls[d], blob)
    {
      if d != c {
        Unconcerned(w, w', w.calls[d], t, blob);
      }
    }
  }

  /** Steps that change no file: a call moves on or leaves. */
  lemma MoveKeeps(w: World, w': World, c: nat, source: nat, blob: seq<int>)
    requires Inv(w, source, blob) && BlobInv(w', source, blob) && c in w.calls
    requires w'.names == w.names && w'.data == w.data && w'.used == w.used
    requires OnlyFor(w, w', c, w.calls[c].temp)
    requires c in w'.calls ==> w'.calls[c].temp == w.calls[c].temp && CallOk(w, w'.calls[c], blob)
    requires w'.written ==> Whole(w, Published, blob)
    ensures Inv(w', source, blob)
  {
    forall d | d in w'.calls
      ensures CallOk(w', w'.calls[d], blob)
    {
      if d != c {
        Unconcerned(w, w', w.calls[d], w.calls[c].temp, blob);
      }
    }
  }

  lemma LinkKeeps(w: World, c: nat, t: nat, source: nat, blob: seq<int>)
    requires Inv(w, source, blob) && c in w.calls && w.calls[c] == Linking(t)
    ensures Inv(Goto(w.(names := w.names[Temp(t) := source]), c, Renaming(t)), source, blob)
  {
    var w' := Goto(w.(names := w.names[Temp(t) := source]), c, Renaming(t));
    forall d | d in w'.calls
      ensures CallOk(w', w'.calls[d], blob)
    {
      if d != c {
        Unconcerned(w, w', w.calls[d], t, blob);
      }
    }
  }

  lemma CreateKeeps(w: World, c: nat, t: nat, source: nat, blob: seq<int>)
    requires Inv(w, source, blob) && c in w.calls && w.calls[c] == Creating(t)
    ensures Inv(Create(w, c, t, true), source, blob)
  {
    var w' := Create(w, c, t, true);
    forall d | d in w'.calls
      ensures CallOk(w', w'.calls[d], blob)
    {
      if d != c {
        Unconcerned(w, w', w.calls[d], t, blob);
      }
    }
  }

  lemma ChunkKeeps(w: World, c: nat, t: nat, i: nat, done: nat, end: nat, source: nat, blob: seq<int>)
    requires Inv(w, source, blob) && c in w.calls && w.calls[c] == Copying(t, i, done) && done <= end <= |blob|
    ensures Inv(Goto(w.(data := w.data[i := Contents(w, i) + blob[done..end]]), c, Copying(t, i, end)), source, blob)
  {
    var w' := Goto(w.(data := w.data[i := Contents(w, i) + blob[done..end]]), c, Copying(t, i, end));
    assert CallOk(w, w.calls[c], blob);
    assert blob[..done] + blob[done..end] == blob[..end];
    forall d | d in w'.calls
      ensures CallOk(w', w'.calls[d], blob)
    {
      if d != c {
        Unconcerned(w, w', w.calls[d], t, blob);
      }
    }
  }

  lemma RenameKeeps(w: World, c: nat, t: nat, source: nat, blob: seq<int>)
    requires Inv(w, source, blob) && c in w.calls && w.calls[c] == Renaming(t)
    ensures Inv(Rename(w, c, t, true), source, blob)
  {
    var w' := Rename(w, c, t, true);
    assert CallOk(w, w.calls[c], blob);
    BlobStep(w, Step(c, true, 0), source, blob);
    forall d | d in w'.calls
      ensures CallOk(w', w'.calls[d], blob)
    {
      Unconcerned(w, w', w.calls[d], t, blob);
    }
  }

  lemma RemoveKeeps(w: World, c: nat, t: nat, source: nat, blob: seq<int>)
    requires Inv(w, source, blob) && c in w.calls && w.calls[c] == Removing(t)
    ensures Inv(Remove(w, c, t, true), source, blob)
  {
    var w' := Remove(w, c, t, true);
    forall d | d in w'.calls
      ensures CallOk(w', w'.calls[d], blob)
    {
      Unconcerned(w, w', w.calls[d], t, blob);
    }
  }

  lemma CallStepKeeps(w: World, c: nat, ok: bool, chunk: nat, source: nat, blob: seq<int>)
    requires Inv(w, source, blob) && c in w.calls
    ensures Inv(Apply(w, Step(c, ok, chunk)), source, blob)
  {
    var w' := Apply(w, Step(c, ok, chunk));
    BlobStep(w, Step(c, ok, chunk), source, blob);
    assert CallOk(w, w.calls[c], blob);
    match w.calls[c]
    case Checking(t) => MoveKeeps(w, w', c, source, blob);
    case Linking(t) => if ok { LinkKeeps(w, c, t, source, blob); } else { MoveKeeps(w, w', c, source, blob); }
    case Creating(t) => if ok { CreateKeeps(w, c, t, source, blob); } else { MoveKeeps(w, w', c, source, blob); }
    case Copying(t, i, done) => CopyKeeps(w, c, t, i, done, ok, chunk, source, blob);
    case Renaming(t) => if ok { RenameKeeps(w, c, t, source, blob); } else { MoveKeeps(w, w', c, source, blob); }
    case Removing(t) => if ok { RemoveKeeps(w, c, t, source, blob); } else { MoveKeeps(w, w', c, source, blob); }
  }

  lemma CopyKeeps(w: World, c: nat, t: nat, i: nat, done: nat, ok: bool, chunk: nat, source: nat, blob: seq<int>)
    requires Inv(w, source, blob) && c in w.calls && w.calls[c] == Copying(t, i, done)
    ensures Inv(Copy(w, c, t, i, done, ok, chunk), source, blob)
  {
    assert CallOk(w, w.calls[c], blob);
    BlobStep(w, Step(c, ok, chunk), source, blob);
    if ok && done < |blob| {
      ChunkKeeps(w, c, t, i, done, if done + chunk <= |blob| then done + chunk else |blob|, source, blob);
    } else {
      MoveKeeps(w, Copy(w, c, t, i, done, ok, chunk), c, source, blob);
    }
  }

  lemma StepKeepsInv(w: World, a: Action, source: nat, blob: seq<int>)
    requires Inv(w, source, blob) && Enabled(w, a)
    requires a.Begin? ==> a.temp !in w.used
    ensures Inv(Apply(w, a), source, blob)
  {
    match a
    case Begin(c, t) => BeginKeeps(w, c, t, source, blob);
    case Step(c, ok, chunk) => CallStepKeeps(w, c, ok, chunk, source, blob);
    case Die(c) =>
      BlobStep(w, a, source, blob);
      MoveKeeps(w, Apply(w, a), c, source, blob);
  }

  lemma {:induction false} RunKeepsInv(w: World, run: seq<Action>, source: nat, blob: seq<int>)
    requires Inv(w, source, blob) && Allowed(w, run) && Distinct(w, run)
    ensures Inv(After(w, run), source, blob)
    decreases run
  {
    if run != [] {
      StepKeepsInv(w, run[0], source, blob);
      RunKeepsInv(Apply(w, run[0]), run[1..], source, blob);
    }
  }

  /**
   * With temporary names that are not used twice, over every interleaving of calls that may link or copy and may die
   * anywhere: the stored file is unchanged, and the published path, once some call has written it, names an inode
   * that holds the whole of it.
   */
  lemma PublishedIsWhole(w: World, run: seq<Action>, blob: seq<int>)
    requires Init(w, blob) && Allowed(w, run) && Distinct(w, run)
    ensures var end := After(w, run);
      && Source in end.names && end.names[Source] == w.names[Source] && Whole(end, Source, blob)
      && (end.written ==> Whole(end, Published, blob))
  {
    RunKeepsInv(w, run, w.names[Source], blob);
  }

  // ---------------------------------------------------------------------------------------------
  // Temporary names used twice.

  lemma {:induction false} Extend(w: World, run: seq<Action>, a: Action)
    requires Allowed(w, run) && Enabled(After(w, run), a)
    ensures Allowed(w, run + [a]) && After(w, run + [a]) == Apply(After(w, run), a)
    decreases run
  {
    if run == [] {
      assert run + [a] == [a] && [a][1..] == [];
    } else {
      assert (run + [a])[1..] == run[1..] + [a];
      Extend(Apply(w, run[0]), run[1..], a);
    }
  }

  /** The stored file `blob` on inode 0, and nothing else. */
  function Lone(blob: seq<int>): World {
    World(map[Source := 0], map[0 := blob], 1, map[], {}, false)
  }

  /** The first call is about to publish the temporary name, and the second stands at `p`, if it is under way. */
  predicate Scene(w: World, linked: bool, second: Option<Process>) {
    && 0 in w.calls && w.calls[0] == Renaming(0)
    && (if second.None? then 1 !in w.calls else 1 in w.calls && w.calls[1] == second.value)
    && Source in w.names && Published !in w.names && (Temp(0) in w.names <==> linked)
  }

  lemma Act(w: World, run: seq<Action>, a: Action) returns (run': seq<Action>)
    requires Allowed(w, run) && Enabled(After(w, run), a)
    ensures Allowed(w, run') && After(w, run') == Apply(After(w, run), a)
  {
    Extend(w, run, a);
    run' := run + [a];
  }

  lemma FirstCallLinks(blob: seq<int>) returns (run: seq<Action>)
    ensures Allowed(Lone(blob), run) && Scene(After(Lone(blob), run), true, None)
    ensures Contents(After(Lone(blob), run), 0) == blob && After(Lone(blob), run).next == 1
  {
    var go := Step(0, true, 0);
    run := Act(Lone(blob), [], Begin(0, 0));
    run := Act(Lone(blob), run, go);
    run := Act(Lone(blob), run, go);
  }

  lemma SecondCallRemoves(w: World, run: seq<Action>) returns (run': seq<Action>)
    requires Allowed(w, run) && Scene(After(w, run), true, None)
    ensures Allowed(w, run') && Scene(After(w, run'), false, None)
    ensures After(w, run').data == After(w, run).data && After(w, run').next == After(w, run).next
  {
    var go := Step(1, true, 0);
    run' := Act(w, run, Begin(1, 0));
    assert Scene(After(w, run'), true, Some(Checking(0)));
    run' := Act(w, run', go);
    assert Scene(After(w, run'), true, Some(Linking(0)));
    run' := SecondCallGivesUp(w, run');
  }

  lemma SecondCallGivesUp(w: World, run: seq<Action>) returns (run': seq<Action>)
    requires Allowed(w, run) && Scene(After(w, run), true, Some(Linking(0)))
    ensures Allowed(w, run') && Scene(After(w, run'), false, None)
    ensures After(w, run').data == After(w, run).data && After(w, run').next == After(w, run).next
  {
    var go := Step(1, true, 0);
    run' := Act(w, run, go);
    assert Scene(After(w, run'), true, Some(Creating(0)));
    run' := Act(w, run', go);
    assert Scene(After(w, run'), true, Some(Removing(0)));
    run' := Act(w, run', go);
  }

  lemma ThirdCallCopies(w: World, run: seq<Action>) returns (run': seq<Action>)
    requires Allowed(w, run) && Scene(After(w, run), false, None)
    ensures Allowed(w, run')
    ensures var x := After(w, run');
      && Scene(x, true, Some(Copying(0, After(w, run).next, 0)))
      && x.names[Temp(0)] == After(w, run).next && Contents(x, x.names[Temp(0)]) == []
  {
    run' := Act(w, run, Begin(1, 0));
    assert Scene(After(w, run'), false, Some(Checking(0)));
    run' := Act(w, run', Step(1, true, 0));
    assert Scene(After(w, run'), false, Some(Linking(0)));
    run' := Act(w, run', Step(1, false, 0));
    assert Scene(After(w, run'), false, Some(Creating(0)));
    run' := Act(w, run', Step(1, true, 0));
  }

  /**
   * Three calls share a temporary name: the first has linked it, the second fails and removes it, the third starts a
   * copy under it, and the first then publishes the copy that has only begun.
   */
  lemma SharedNamesPublishPart(blob: seq<int>) returns (run: seq<Action>)
    requires blob != []
    ensures Init(Lone(blob), blob) && Allowed(Lone(blob), run)
    ensures After(Lone(blob), run).written && !Whole(After(Lone(blob), run), Published, blob)
  {
    run := FirstCallLinks(blob);
    run := SecondCallRemoves(Lone(blob), run);
    run := ThirdCallCopies(Lone(blob), run);
    run := Act(Lone(blob), run, Step(0, true, 0));
  }
}
