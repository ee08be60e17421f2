/** Recording a push: identity numbers what arrived, then one journal lists it.

    Concurrent pushes are processes over one shared store. Every interaction
    with the store is one atomic step, reads are as stale as interleaving makes
    them, a process may stop at any point, and one that loses the numbering race
    starts again.
*/
module Numbering {
  import opened Graphs
  import opened Bands
  import opened Schedule
  import opened Objects
  import opened TopoOrder

  /** What an object is called. */
  datatype Identity = Identity(kind: Kind, num: nat)

  /** A commit's content. An oid fixes it, so every push of one brings the same. */
  datatype Body = Body(parents: seq<Oid>, root: Oid, date: int)

  type World = map<Oid, Body>

  /** What a push brings: its commits, and its other objects with the kind of
      each, the commits whose packs hold it, with what its entry there deltas
      against, and what it names if it is a tree. */
  datatype NewObject = NewObject(kind: Kind, packs: map<Oid, Option<Oid>>, children: set<Oid>)
  datatype Push = Push(commits: set<Oid>, objects: map<Oid, NewObject>)

  /** One commit as a graph segment records it. */
  datatype Row = Row(parents: seq<nat>, root: nat, generation: nat)

  type Segment = map<nat, Row>

  /** How far one attempt at a push has got. */
  datatype Phase = Reading | Planned | Located | Numbered | Resolved | Ranked | Recorded | Done | Stopped

  /** One push in flight.

      `known` is what it read before planning, `seqOf` the commits it resolved,
      `mine` what it allocated and has not yet recorded, `objOf` the objects it
      resolved, `unlisted` those of its objects the object index did not have when
      it looked and `left` the kinds it has yet to allocate for. */
  datatype Process = Process(
    phase: Phase, push: Push, attempt: nat, known: map<Oid, Option<Identity>>,
    order: seq<Oid>, seqOf: map<Oid, nat>, toInsert: seq<Oid>, mine: map<Oid, Identity>,
    objOf: map<Oid, Identity>, unlisted: Option<set<Oid>>, left: seq<Kind>, ranks: map<nat, nat>)

  /** The store, and every push ever begun against it. `listed` is what the object
      index has. */
  datatype State = State(
    next: map<Kind, nat>, ids: map<Oid, Identity>, segments: seq<Segment>, listed: set<Oid>,
    processes: map<int, Process>)

  const MAX_APPEND_ATTEMPTS := 5
  const U32_MAX := 0xFFFF_FFFF

  /** Every listed segment joined. */
  ghost function Index(segments: seq<Segment>): Segment
  {
    if segments == [] then map[] else Index(segments[..|segments| - 1]) + segments[|segments| - 1]
  }

  function Max(s: seq<nat>): nat
  {
    if s == [] then 0 else if s[0] >= Max(s[1..]) then s[0] else Max(s[1..])
  }

  /** A generation that would do: a positive word, no lower than the date and above
      every parent, as far as a word can be. */
  ghost predicate Suits(date: int, parents: seq<nat>, m: int)
  {
    && 1 <= m <= U32_MAX && (m >= date || m == U32_MAX)
    && forall i :: 0 <= i < |parents| ==> m > parents[i] || m == U32_MAX
  }

  /** The least generation that does. */
  function CorrectedDate(date: int, parents: seq<nat>): (r: nat)
    ensures Suits(date, parents, r)
    ensures forall m :: Suits(date, parents, m) ==> r <= m
  {
    MaxIsMember(parents);
    var own := if date < 0 then 0 else if date > U32_MAX then U32_MAX else date;
    var deepest := Max(parents);
    MaxBounds(parents);
    var floor := if parents == [] then 0 else if deepest >= U32_MAX then U32_MAX else deepest + 1;
    var higher := if own >= floor then own else floor;
    if higher >= 1 then higher else 1
  }

  lemma {:induction false} MaxIsMember(s: seq<nat>)
    ensures s != [] ==> exists i :: 0 <= i < |s| && s[i] == Max(s)
  {
    if s != [] {
      if s[0] < Max(s[1..]) {
        MaxIsMember(s[1..]);
        var i :| 0 <= i < |s[1..]| && s[1..][i] == Max(s[1..]);
        assert s[i + 1] == Max(s);
      } else {
        assert s[0] == Max(s);
      }
    }
  }

  lemma {:induction false} MaxBounds(s: seq<nat>)
    ensures forall i :: 0 <= i < |s| ==> s[i] <= Max(s)
  {
    if s != [] {
      MaxBounds(s[1..]);
      assert forall i :: 0 < i < |s| ==> s[i] == s[1..][i - 1];
    }
  }

  // ---------------------------------------------------------------- steps

  ghost function BatchOf(w: World, push: Push): Batch
  {
    map c | c in push.commits && c in w :: w[c].parents
  }

  /** Content addressing, as one push shows it: an oid has one kind. */
  ghost predicate WellFormed(w: World, push: Push)
  {
    && push.commits <= w.Keys
    && push.commits !! push.objects.Keys
    && (forall o :: o in push.objects ==> push.objects[o].kind != Commit)
  }

  function IdentityOf(ids: map<Oid, Identity>, o: Oid): Option<Identity>
  {
    if o in ids then Some(ids[o]) else None
  }

  /** What a process takes `o` to be: from what it read earlier where that
      covers it, and otherwise from the store now. */
  function Answer(s: State, p: Process, o: Oid): Option<Identity>
  {
    if o in p.known then p.known[o] else IdentityOf(s.ids, o)
  }

  /** The oids whose commit numbers a push needs. */
  ghost function AskedCommits(w: World, push: Push): set<Oid>
  {
    push.commits + set c, p | c in push.commits && c in w && p in w[c].parents :: p
  }

  ghost function ResolvedCommits(w: World, s: State, p: Process): map<Oid, nat>
  {
    map c | c in AskedCommits(w, p.push) && Answer(s, p, c).Some? && Answer(s, p, c).value.kind == Commit
      :: Answer(s, p, c).value.num
  }

  function Filter(q: seq<Oid>, keep: set<Oid>): (r: seq<Oid>)
    ensures forall x :: x in r <==> x in q && x in keep
    ensures Distinct(q) ==> Distinct(r)
  {
    if q == [] then []
    else
      var rest := Filter(q[1..], keep);
      assert Distinct(q) ==> Distinct(q[1..]) && q[0] !in q[1..];
      if q[0] in keep then [q[0]] + rest else rest
  }

  /** Numbered, and with its entry in the graph. */
  ghost predicate HasEntry(s: State, seqOf: map<Oid, nat>, c: Oid)
  {
    c in seqOf && seqOf[c] in Index(s.segments)
  }

  /** `taking` numbered from `start`, in order. */
  ghost function Block(kind: Kind, taking: seq<Oid>, start: nat): map<Oid, Identity>
  {
    map o | o in taking :: Identity(kind, start + PositionOf(taking, o))
  }

  ghost function PositionOf(q: seq<Oid>, x: Oid): (i: nat)
    requires x in q
    ensures i < |q| && q[i] == x
  {
    var i :| 0 <= i < |q| && q[i] == x;
    i
  }

  ghost function Nums(block: map<Oid, Identity>): map<Oid, nat>
  {
    map o | o in block :: block[o].num
  }

  /** Objects with work this push: in a pack it is recording, or in none. */
  ghost function Relevant(p: Process): set<Oid>
  {
    set o | o in p.push.objects &&
      (p.push.objects[o].packs == map[] || exists c :: c in p.push.objects[o].packs && c in p.toInsert)
  }

  /** What the entries of `o` in the packs being recorded delta against. */
  ghost function BasesOf(p: Process, o: Oid): set<Oid>
    requires o in p.push.objects
  {
    set c | c in p.push.objects[o].packs && c in p.toInsert && p.push.objects[o].packs[c].Some?
      :: p.push.objects[o].packs[c].value
  }

  /** Every object whose number this push needs: its own, what they name and delta
      against, and the root trees of the commits it records. */
  ghost function Wanted(w: World, p: Process): set<Oid>
  {
    Relevant(p)
    + (set o, n | o in Relevant(p) && n in p.push.objects[o].children :: n)
    + (set o, b | o in Relevant(p) && b in BasesOf(p, o) :: b)
    + (set c | c in p.toInsert && c in w :: w[c].root)
  }

  /** Having once read that an object is absent settles it only if the push brings that object. */
  ghost function ObjectAnswer(s: State, p: Process, o: Oid): Option<Identity>
  {
    if o in p.known && (p.known[o].Some? || o in Relevant(p)) then p.known[o] else IdentityOf(s.ids, o)
  }

  ghost function ResolvedObjects(w: World, s: State, p: Process): map<Oid, Identity>
  {
    map o | o in Wanted(w, p) && ObjectAnswer(s, p, o).Some? && ObjectAnswer(s, p, o).value.kind != Commit
      :: ObjectAnswer(s, p, o).value
  }

  /** Every parent has a seq, and every root tree a tree's. */
  ghost predicate Buildable(w: World, toInsert: seq<Oid>, seqOf: map<Oid, nat>, objOf: map<Oid, Identity>)
  {
    forall c :: c in toInsert ==>
      && c in w && c in seqOf
      && (forall q :: q in w[c].parents ==> q in seqOf)
      && w[c].root in objOf && objOf[w[c].root].kind == Tree
  }

  ghost function OwnSeqs(toInsert: seq<Oid>, seqOf: map<Oid, nat>): set<nat>
  {
    set c | c in toInsert && c in seqOf :: seqOf[c]
  }

  /** Parents this push does not itself record. */
  ghost function Outside(w: World, toInsert: seq<Oid>, seqOf: map<Oid, nat>): set<nat>
  {
    set c, q | c in toInsert && c in w && q in w[c].parents && q in seqOf && seqOf[q] !in OwnSeqs(toInsert, seqOf)
      :: seqOf[q]
  }

  /** The generation of a parent, from the segment being built or from what was
      read of the graph. */
  ghost function ParentRank(segment: Segment, ranks: map<nat, nat>, n: nat): nat
  {
    if n in segment then segment[n].generation else if n in ranks then ranks[n] else 0
  }

  ghost predicate IsRow(w: World, p: Process, segment: Segment, c: Oid, row: Row)
    requires Buildable(w, p.toInsert, p.seqOf, p.objOf) && c in p.toInsert
  {
    var body := w[c];
    && |row.parents| == |body.parents|
    && (forall i :: 0 <= i < |body.parents| ==>
          body.parents[i] in p.seqOf && row.parents[i] == p.seqOf[body.parents[i]])
    && row.root == p.objOf[body.root].num
    && row.generation == CorrectedDate(body.date, seq(|row.parents|, i requires 0 <= i < |row.parents| =>
         ParentRank(segment, p.ranks, row.parents[i])))
  }

  /** The segment one push's commits make, each ranked against its parents. */
  ghost predicate IsBuilt(w: World, p: Process, segment: Segment)
  {
    && Buildable(w, p.toInsert, p.seqOf, p.objOf)
    && segment.Keys == OwnSeqs(p.toInsert, p.seqOf)
    && (forall c :: c in p.toInsert ==> IsRow(w, p, segment, c, segment[p.seqOf[c]]))
  }

  ghost function Fresh(push: Push, attempt: nat): Process
  {
    Process(Reading, push, attempt, map[], [], map[], [], map[], map[], None, [], map[])
  }

  ghost predicate Begin(w: World, s: State, s': State, pid: int)
  {
    && pid !in s.processes
    && exists push :: WellFormed(w, push) && s' == s.(processes := s.processes[pid := Fresh(push, 0)])
  }

  /** Only the process `pid` moves. */
  ghost predicate Moves(s: State, s': State, pid: int, phase: Phase, p: Process)
  {
    && pid in s.processes && s.processes[pid].phase == phase
    && s'.processes == s.processes[pid := p]
  }

  /** Attribution reads what one oid is called, ahead of the first attempt. */
  ghost predicate Learn(s: State, s': State, pid: int)
  {
    && pid in s.processes && s.processes[pid].attempt == 0
    && var p := s.processes[pid];
    exists o :: Moves(s, s', pid, Reading, p.(known := p.known[o := IdentityOf(s.ids, o)]))
      && s' == s.(processes := s'.processes)
  }

  ghost predicate Resolve(w: World, s: State, s': State, pid: int)
  {
    && pid in s.processes
    && var p := s.processes[pid];
    exists order :: IsTopo(BatchOf(w, p.push), order)
      && Moves(s, s', pid, Reading, p.(phase := Planned, order := order, seqOf := ResolvedCommits(w, s, p)))
      && s' == s.(processes := s'.processes)
  }

  ghost predicate Locate(s: State, s': State, pid: int)
  {
    && pid in s.processes
    && var p := s.processes[pid];
    var missing := set c | c in p.order && !HasEntry(s, p.seqOf, c);
    && Moves(s, s', pid, Planned, p.(phase := Located, toInsert := Filter(p.order, missing)))
    && s' == s.(processes := s'.processes)
  }

  /** The commits to insert that have no seq yet, in topological order. */
  ghost function Taking(toInsert: seq<Oid>, seqOf: map<Oid, nat>): seq<Oid>
  {
    Filter(toInsert, set c | c in toInsert && c !in seqOf)
  }

  /** Takes one block of commit seqs for what has none, in topological order. */
  ghost predicate Number(s: State, s': State, pid: int)
  {
    && pid in s.processes && Commit in s.next
    && var p := s.processes[pid];
    var taking := Taking(p.toInsert, p.seqOf);
    var block := Block(Commit, taking, s.next[Commit]);
    && Moves(s, s', pid, Located, p.(phase := Numbered, seqOf := p.seqOf + Nums(block), mine := block))
    && s' == s.(processes := s'.processes, next := s.next[Commit := s.next[Commit] + |taking|])
  }

  ghost predicate ReadObjects(w: World, s: State, s': State, pid: int)
  {
    && pid in s.processes
    && var p := s.processes[pid];
    && Moves(s, s', pid, Numbered,
             p.(phase := Resolved, objOf := ResolvedObjects(w, s, p), unlisted := None, left := [Tree, Blob, Tag]))
    && s' == s.(processes := s'.processes)
  }

  /** Looks up which of its objects, of those that have a number, the index has. */
  ghost predicate LookUp(s: State, s': State, pid: int)
  {
    && pid in s.processes && s.processes[pid].unlisted.None?
    && var p := s.processes[pid];
    var unlisted := set o | o in Relevant(p) && !(o in p.objOf && o in s.listed);
    && Moves(s, s', pid, Resolved, p.(unlisted := Some(unlisted)))
    && s' == s.(processes := s'.processes)
  }

  /** The relevant objects of one kind that have no number yet. */
  ghost function Unnumbered(p: Process, kind: Kind): set<Oid>
  {
    set o | o in Relevant(p) && p.push.objects[o].kind == kind && o !in p.objOf
  }

  ghost predicate NumberThese(s: State, s': State, pid: int, taking: seq<Oid>)
  {
    && pid in s.processes
    && var p := s.processes[pid];
    && p.unlisted.Some? && p.left != [] && p.left[0] in s.next
    && var kind := p.left[0];
    var block := Block(kind, taking, s.next[kind]);
    && Distinct(taking) && AsSet(taking) == Unnumbered(p, kind)
    && Moves(s, s', pid, Resolved, p.(objOf := p.objOf + block, mine := p.mine + block, left := p.left[1..]))
    && s' == s.(processes := s'.processes, next := s.next[kind := s.next[kind] + |taking|])
  }

  /** Takes one block of one kind's seqs, in whatever order the objects came. */
  ghost predicate NumberObjects(s: State, s': State, pid: int)
  {
    exists taking :: NumberThese(s, s', pid, taking)
  }

  /** What the index is to say of an object can be said: in a pack it is a tree or a
      blob, it deltas against its own kind, and a tree new to the index names trees
      and blobs. */
  ghost predicate Indexable(p: Process, o: Oid)
    requires o in p.push.objects
  {
    var brought := p.push.objects[o];
    && (forall c :: c in brought.packs && c in p.toInsert ==> HasKind(p.objOf, o, {Tree, Blob}))
    && (forall b :: b in BasesOf(p, o) ==> HasKind(p.objOf, b, {brought.kind}))
    && (brought.kind == Tree && p.unlisted.Some? && o in p.unlisted.value ==>
          forall n :: n in brought.children ==> HasKind(p.objOf, n, {Tree, Blob}))
  }

  ghost predicate HasKind(objOf: map<Oid, Identity>, o: Oid, kinds: set<Kind>)
  {
    o in objOf && objOf[o].kind in kinds
  }

  /** Everything a push is to list resolves. */
  ghost predicate Complete(w: World, p: Process)
  {
    && Buildable(w, p.toInsert, p.seqOf, p.objOf)
    && forall o :: o in Relevant(p) ==> Indexable(p, o)
  }

  /** Reads what the parents outside this push rank at; each must be there. */
  ghost predicate Rank(w: World, s: State, s': State, pid: int)
  {
    && pid in s.processes
    && var p := s.processes[pid];
    && p.unlisted.Some? && p.left == [] && Complete(w, p)
    && Outside(w, p.toInsert, p.seqOf) <= Index(s.segments).Keys
    && var ranks := map n | n in Outside(w, p.toInsert, p.seqOf) :: Index(s.segments)[n].generation;
    && Moves(s, s', pid, Resolved, p.(phase := Ranked, ranks := ranks))
    && s' == s.(processes := s'.processes)
  }

  /** Numbering lands, all of it: nothing it names had a number. */
  ghost predicate Record(s: State, s': State, pid: int)
  {
    && pid in s.processes
    && var p := s.processes[pid];
    && p.mine.Keys !! s.ids.Keys
    && Moves(s, s', pid, Ranked, p.(phase := Recorded, mine := map[]))
    && s' == s.(processes := s'.processes, ids := s.ids + p.mine)
  }

  /** The claim fails because some oid of it is taken; the push drops what it read and retries, or gives up. */
  ghost predicate Race(s: State, s': State, pid: int)
  {
    && pid in s.processes
    && var p := s.processes[pid];
    && !(p.mine.Keys !! s.ids.Keys)
    && Moves(s, s', pid, Ranked,
             if p.attempt + 1 < MAX_APPEND_ATTEMPTS then Fresh(p.push, p.attempt + 1)
             else p.(phase := Stopped, mine := map[]))
    && s' == s.(processes := s'.processes)
  }

  ghost predicate JournalWith(w: World, s: State, s': State, pid: int, segment: Segment)
  {
    && pid in s.processes && s.processes[pid].phase == Recorded
    && var p := s.processes[pid];
    && IsBuilt(w, p, segment)
    && s' == s.(processes := s.processes[pid := p.(phase := Done)],
                segments := if p.toInsert == [] then s.segments else s.segments + [segment],
                listed := s.listed + Relevant(p))
  }

  /** The journal lands, all of it or none. */
  ghost predicate Journal(w: World, s: State, s': State, pid: int)
  {
    exists segment :: JournalWith(w, s, s', pid, segment)
  }

  /** A failure, a crash, or an error the caller sees: the process goes no further. */
  ghost predicate Stop(s: State, s': State, pid: int)
  {
    && pid in s.processes
    && var p := s.processes[pid];
    && p.phase != Done
    && s' == s.(processes := s.processes[pid := p.(phase := Stopped, mine := map[])])
  }

  ghost predicate Step(w: World, s: State, s': State, pid: int)
  {
    || Begin(w, s, s', pid)
    || Learn(s, s', pid)
    || Resolve(w, s, s', pid)
    || Locate(s, s', pid)
    || Number(s, s', pid)
    || ReadObjects(w, s, s', pid)
    || LookUp(s, s', pid)
    || NumberObjects(s, s', pid)
    || Rank(w, s, s', pid)
    || Record(s, s', pid)
    || Race(s, s', pid)
    || Journal(w, s, s', pid)
    || Stop(s, s', pid)
  }

  ghost predicate Init(s: State)
  {
    && (forall k: Kind :: k in s.next)
    && s.ids == map[] && s.segments == [] && s.listed == {} && s.processes == map[]
  }

  ghost predicate Next(w: World, s: State, s': State)
  {
    exists pid :: Step(w, s, s', pid)
  }

  /** A run of the store under any interleaving. */
  ghost predicate IsRun(w: World, run: seq<State>)
  {
    && |run| > 0 && Init(run[0])
    && forall i :: 0 <= i < |run| - 1 ==> Next(w, run[i], run[i + 1])
  }
}
