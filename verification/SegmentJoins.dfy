/** What reading the listed segments answers: the protocol's index is what joining
    the stored ones gives, however they are grouped, ordered or compacted.
*/
module SegmentJoins {
  import opened Graphs
  import opened Objects
  import opened CommitIndexes
  import opened Numbering
  import Safety = NumberingSafety

  /** A row as it is recorded; generations never pass a word. */
  ghost function CommitOf(row: Row): CommitIndexes.Commit
  {
    CommitIndexes.Commit(row.parents, row.root, if row.generation <= U32_MAX then row.generation else U32_MAX)
  }

  ghost function ToldOf(segment: Segment): map<int, CommitIndexes.Commit>
  {
    map n: nat | n in segment :: CommitOf(segment[n])
  }

  /** A stored index of exactly the rows of a segment, with room for their tails. */
  ghost predicate Writes(segment: Segment, index: CommitIndex)
  {
    Standing(index) && Built(ToldOf(segment), index)
  }

  /** What a segment says of a seq. */
  ghost function Says(segment: Segment, x: int): Option<Node>
  {
    if x >= 0 && x in segment then Some(NodeOf(CommitOf(segment[x]))) else None
  }

  lemma WritesSays(segment: Segment, index: CommitIndex, x: int)
    requires Writes(segment, index)
    ensures Lookup(index, x) == Says(segment, x)
    ensures x >= 0 && x in segment ==> Gives(NodeOf(CommitOf(segment[x])), CommitOf(segment[x]))
  {
    hide Lookup, Standing, Laid;
    BuiltAnswers(ToldOf(segment), index, x);
    if x >= 0 && x in segment {
      assert Writable(x, ToldOf(segment)[x]);
      ParentsReadBack(x, CommitOf(segment[x]));
    }
  }

  // ------------------------------------------------------------ joining them

  /** One way of joining: a segment, or two joins joined. */
  datatype Plan = One(at: nat) | Two(left: Plan, right: Plan)

  ghost function Uses(plan: Plan): set<nat>
  {
    match plan
    case One(at) => {at}
    case Two(left, right) => Uses(left) + Uses(right)
  }

  /** `r` comes of joining the indexes as planned, no tail overflowing on the way. */
  ghost predicate Comes(plan: Plan, indexes: seq<CommitIndex>, r: CommitIndex)
  {
    match plan
    case One(at) => at < |indexes| && r == indexes[at]
    case Two(left, right) => exists a, b ::
      && Comes(left, indexes, a) && Comes(right, indexes, b)
      && JoinOf(a, b, r) && (Empty(a) || Empty(b) || JointFits(a, b))
  }

  /** Some index used answers at `x`. */
  ghost predicate AnyAnswers(plan: Plan, indexes: seq<CommitIndex>, x: int)
  {
    exists i :: i in Uses(plan) && i < |indexes| && Lookup(indexes[i], x).Some?
  }

  /** Where all that answer agree, a join answers as they do, and only there. */
  lemma {:induction false} ComesAnswers(plan: Plan, indexes: seq<CommitIndex>, r: CommitIndex, x: int, n: Node)
    requires Comes(plan, indexes, r)
    requires forall i :: i in Uses(plan) && i < |indexes| && Lookup(indexes[i], x).Some? ==>
      Lookup(indexes[i], x) == Some(n)
    ensures Lookup(r, x) == if AnyAnswers(plan, indexes, x) then Some(n) else None
  {
    hide Lookup, JoinOf, JointFits, Empty;
    match plan {
      case One(at) =>
        assert at in Uses(plan);
      case Two(left, right) =>
        var a, b :|
          && Comes(left, indexes, a) && Comes(right, indexes, b)
          && JoinOf(a, b, r) && (Empty(a) || Empty(b) || JointFits(a, b));
        ComesAnswers(left, indexes, a, x, n);
        ComesAnswers(right, indexes, b, x, n);
        JoinIsExactIffFits(a, b, r);
        assert Lookup(r, x) == Best(a, b, x);
        AnyOfTwo(left, right, indexes, x);
    }
  }

  lemma AnyOfTwo(left: Plan, right: Plan, indexes: seq<CommitIndex>, x: int)
    ensures AnyAnswers(Two(left, right), indexes, x) <==> AnyAnswers(left, indexes, x) || AnyAnswers(right, indexes, x)
  {
    hide Lookup;
    assert Uses(Two(left, right)) == Uses(left) + Uses(right);
  }

  // ----------------------------------------------------------- the index read

  ghost predicate Agree(segments: seq<Segment>)
  {
    forall i, j, n :: 0 <= i < |segments| && 0 <= j < |segments| && n in segments[i] && n in segments[j] ==>
      segments[i][n] == segments[j][n]
  }

  /** Where segments agree, their index has each one's rows and no others. */
  lemma {:induction false} IndexHas(segments: seq<Segment>, n: nat)
    requires Agree(segments)
    ensures n in Index(segments) <==> exists i :: 0 <= i < |segments| && n in segments[i]
    ensures forall i :: 0 <= i < |segments| && n in segments[i] ==> Index(segments)[n] == segments[i][n]
  {
    if segments != [] {
      var last := |segments| - 1;
      var front := segments[..last];
      assert forall i :: 0 <= i < last ==> front[i] == segments[i];
      IndexHas(front, n);
    }
  }

  lemma SaysIndex(segments: seq<Segment>, i: nat, x: int)
    requires Agree(segments) && i < |segments| && Says(segments[i], x).Some?
    ensures x in Index(segments) && segments[i][x] == Index(segments)[x]
  {
    hide Index;
    IndexHas(segments, x);
  }

  lemma IndexSays(segments: seq<Segment>, x: int) returns (i: nat)
    requires Agree(segments) && Says(Index(segments), x).Some?
    ensures i < |segments| && Says(segments[i], x).Some?
  {
    hide Index;
    IndexHas(segments, x);
    i :| 0 <= i < |segments| && x in segments[i];
  }

  /** In every state of every run: however the segments listed are joined, all of
      them used and none overflowing, the result answers at every seq with the row
      of the protocol's index, and with nothing where it has none. */
  lemma JoinedIsIndex(w: World, run: seq<State>, j: nat, indexes: seq<CommitIndex>, plan: Plan, r: CommitIndex, x: int)
    requires IsRun(w, run) && j < |run| && |indexes| == |run[j].segments|
    requires forall i :: 0 <= i < |indexes| ==> Writes(run[j].segments[i], indexes[i])
    requires Comes(plan, indexes, r) && forall i :: 0 <= i < |indexes| ==> i in Uses(plan)
    ensures var index := Index(run[j].segments);
      if x >= 0 && x in index then Lookup(r, x).Some? && Gives(Lookup(r, x).value, CommitOf(index[x]))
      else Lookup(r, x) == None
  {
    hide Lookup, Index, Writes, Comes, IsRun, Gives, NodeOf, CommitOf;
    var segments := run[j].segments;
    ListedAgree(w, run, j);
    forall i | 0 <= i < |indexes| ensures Lookup(indexes[i], x) == Says(segments[i], x) {
      WritesSays(segments[i], indexes[i], x);
    }
    var said := Says(Index(segments), x);
    var n := if said.Some? then said.value else Node(0, 0, 0, 0, []);
    forall i | i in Uses(plan) && i < |indexes| && Lookup(indexes[i], x).Some?
      ensures Lookup(indexes[i], x) == Some(n)
    {
      SaysIndex(segments, i, x);
      assert segments[i][x] == Index(segments)[x];
    }
    ComesAnswers(plan, indexes, r, x, n);
    if said.Some? {
      var i := IndexSays(segments, x);
      assert i in Uses(plan) && Lookup(indexes[i], x).Some?;
      WritesSays(segments[i], indexes[i], x);
      SaysIndex(segments, i, x);
    } else {
      forall i | i in Uses(plan) && i < |indexes| ensures Lookup(indexes[i], x).None? {
        if Says(segments[i], x).Some? {
          SaysIndex(segments, i, x);
        }
      }
    }
  }

  lemma ListedAgree(w: World, run: seq<State>, j: nat)
    requires IsRun(w, run) && j < |run|
    ensures Agree(run[j].segments)
  {
    hide IsRun;
    var segments := run[j].segments;
    forall a, b, n | 0 <= a < |segments| && 0 <= b < |segments| && n in segments[a] && n in segments[b]
      ensures segments[a][n] == segments[b][n]
    {
      Safety.SegmentsAgree(w, run, j, j, a, b, n);
    }
  }
}
