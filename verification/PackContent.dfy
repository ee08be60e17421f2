/** What the entries of a received pack are, by a definition that follows each
    delta to its base and fixes no order of work.
*/
module PackContent {
  import opened Objects

  newtype Byte = x: int | 0 <= x < 256

  type Content = seq<Byte>

  datatype Object = Object(kind: Kind, content: Content)

  /** Nothing, an earlier entry, or an object by id: what an entry stands on. */
  datatype Base = Whole(kind: Kind) | InPack(at: nat) | Ref(id: Oid)

  /** One entry the scan located; `size` is its payload's, decompressed. */
  datatype Entry = Entry(base: Base, size: nat)

  /** Applying a delta and parsing may each refuse their input; hashing an
      object gives its id. */
  datatype Codec = Codec(apply: (Content, Content) -> Option<Content>, parses: Object -> bool, hash: Object -> Oid)

  /** A pack, what each entry's bytes inflate to, and the objects the
      repository already holds. */
  datatype Pack = Pack(entries: seq<Entry>, inflate: nat -> Option<Content>, repo: map<Oid, Object>, codec: Codec)

  /** No two objects share an id. */
  ghost predicate Injective(codec: Codec)
  {
    forall a: Object, b: Object :: codec.hash(a) == codec.hash(b) ==> a == b
  }

  /** The kind an entry will have, and the content its delta applies to if it is one. */
  datatype JobBase = JobBase(kind: Kind, content: Option<Content>)

  /** The object an entry becomes on a base, if its bytes allow one. */
  function Decode(pack: Pack, i: nat, base: JobBase): Option<Object>
  {
    match pack.inflate(i)
    case None => None
    case Some(inflated) =>
      match (if base.content.None? then Some(inflated) else pack.codec.apply(base.content.value, inflated))
      case None => None
      case Some(content) =>
        if pack.codec.parses(Object(base.kind, content)) then Some(Object(base.kind, content)) else None
  }

  /** What is known of each entry so far. */
  type Known = seq<Option<Object>>

  ghost predicate Named(pack: Pack, known: Known, id: Oid, o: Object)
  {
    exists j :: 0 <= j < |known| && known[j] == Some(o) && pack.codec.hash(o) == id
  }

  /** The known entry called `id`. */
  ghost function Find(pack: Pack, known: Known, id: Oid): Option<Object>
  {
    if exists o :: Named(pack, known, id, o) then
      var o :| Named(pack, known, id, o);
      Some(o)
    else None
  }

  function OnObject(o: Object): JobBase
  {
    JobBase(o.kind, Some(o.content))
  }

  /** The base entry `i` has in hand. The repository answers for an id before the pack does. */
  ghost function BaseOf(pack: Pack, known: Known, i: nat): Option<JobBase>
    requires i < |pack.entries|
  {
    match pack.entries[i].base
    case Whole(kind) => Some(JobBase(kind, None))
    case InPack(j) => if j < |known| && known[j].Some? then Some(OnObject(known[j].value)) else None
    case Ref(id) =>
      if id in pack.repo then Some(OnObject(pack.repo[id]))
      else if Find(pack, known, id).Some? then Some(OnObject(Find(pack, known, id).value)) else None
  }

  /** Entry `i`'s object, given what is known of the others. */
  ghost function Derive(pack: Pack, known: Known, i: nat): Option<Object>
    requires i < |pack.entries|
  {
    if BaseOf(pack, known, i).None? then None else Decode(pack, i, BaseOf(pack, known, i).value)
  }

  /** What chains of fewer than `n` bases settle. */
  ghost function Level(pack: Pack, n: nat): (known: Known)
    ensures |known| == |pack.entries|
  {
    if n == 0 then seq(|pack.entries|, _ => None)
    else seq(|pack.entries|, i requires 0 <= i < |pack.entries| => Derive(pack, Level(pack, n - 1), i))
  }

  /** Entry `i` is `o`: some finite chain of bases ends at a whole entry or a
      repository object and rebuilds it. */
  ghost predicate Is(pack: Pack, i: nat, o: Object)
    requires i < |pack.entries|
  {
    exists n: nat :: Level(pack, n)[i] == Some(o)
  }

  ghost predicate Grows(was: Known, known: Known)
  {
    |was| == |known| && forall i :: 0 <= i < |was| && was[i].Some? ==> known[i] == was[i]
  }

  lemma FindIsNamed(pack: Pack, known: Known, id: Oid, o: Object)
    requires Injective(pack.codec) && Named(pack, known, id, o)
    ensures Find(pack, known, id) == Some(o)
  {
    var p := Find(pack, known, id).value;
    var j :| 0 <= j < |known| && known[j] == Some(p) && pack.codec.hash(p) == id;
    var k :| 0 <= k < |known| && known[k] == Some(o) && pack.codec.hash(o) == id;
  }

  /** Learning more never changes a base already in hand. */
  lemma BaseStays(pack: Pack, was: Known, known: Known, i: nat)
    requires Injective(pack.codec) && Grows(was, known) && i < |pack.entries|
    requires BaseOf(pack, was, i).Some?
    ensures BaseOf(pack, known, i) == BaseOf(pack, was, i)
  {
    hide Injective;
    if pack.entries[i].base.Ref? && pack.entries[i].base.id !in pack.repo {
      var id := pack.entries[i].base.id;
      var o :| Named(pack, was, id, o) && Find(pack, was, id) == Some(o);
      var j :| 0 <= j < |was| && was[j] == Some(o) && pack.codec.hash(o) == id;
      assert known[j] == Some(o);
      assert Named(pack, known, id, o);
      FindIsNamed(pack, known, id, o);
    }
  }

  lemma DeriveStays(pack: Pack, was: Known, known: Known, i: nat)
    requires Injective(pack.codec) && Grows(was, known) && i < |pack.entries|
    requires Derive(pack, was, i).Some?
    ensures Derive(pack, known, i) == Derive(pack, was, i)
  {
    hide BaseOf, Decode, Grows, Injective;
    BaseStays(pack, was, known, i);
  }

  lemma LevelAt(pack: Pack, n: nat, i: nat)
    requires i < |pack.entries|
    ensures Level(pack, n + 1)[i] == Derive(pack, Level(pack, n), i)
    ensures Level(pack, 0)[i] == None
  {
  }

  lemma {:induction false} LevelGrows(pack: Pack, n: nat)
    requires Injective(pack.codec)
    ensures Grows(Level(pack, n), Level(pack, n + 1))
  {
    hide Level, Derive, Injective;
    forall i | 0 <= i < |pack.entries| && Level(pack, n)[i].Some?
      ensures Level(pack, n + 1)[i] == Level(pack, n)[i]
    {
      LevelAt(pack, n, i);
      if n > 0 {
        LevelAt(pack, n - 1, i);
        LevelGrows(pack, n - 1);
        DeriveStays(pack, Level(pack, n - 1), Level(pack, n), i);
      }
    }
  }

  lemma {:induction false} LevelGrowsTo(pack: Pack, m: nat, n: nat)
    requires Injective(pack.codec) && m <= n
    ensures Grows(Level(pack, m), Level(pack, n))
    decreases n
  {
    hide Level, Injective;
    if m < n {
      LevelGrowsTo(pack, m, n - 1);
      LevelGrows(pack, n - 1);
    }
  }

  /** An entry is at most one object. */
  lemma IsUnique(pack: Pack, i: nat, o: Object, p: Object)
    requires Injective(pack.codec) && i < |pack.entries| && Is(pack, i, o) && Is(pack, i, p)
    ensures o == p
  {
    hide Level, Injective;
    var m: nat :| Level(pack, m)[i] == Some(o);
    var n: nat :| Level(pack, n)[i] == Some(p);
    if m <= n {
      LevelGrowsTo(pack, m, n);
    } else {
      LevelGrowsTo(pack, n, m);
    }
  }

  /** Whatever is known is what the entries derive from it. */
  ghost predicate Consistent(pack: Pack, known: Known)
  {
    |known| == |pack.entries|
    && forall i :: 0 <= i < |known| && known[i].Some? ==> known[i] == Derive(pack, known, i)
  }

  /** Nothing more can be derived. */
  ghost predicate Settled(pack: Pack, known: Known)
  {
    |known| == |pack.entries| && forall i :: 0 <= i < |known| ==> known[i] == Derive(pack, known, i)
  }

  /** What is settled is everything any chain settles. */
  lemma {:induction false} SettledIsAll(pack: Pack, known: Known, n: nat)
    requires Injective(pack.codec) && Settled(pack, known)
    ensures Grows(Level(pack, n), known)
  {
    hide Level, Derive, Injective;
    forall i | 0 <= i < |pack.entries| && Level(pack, n)[i].Some? ensures known[i] == Level(pack, n)[i] {
      if n == 0 {
        LevelAt(pack, 0, i);
      } else {
        LevelAt(pack, n - 1, i);
        SettledIsAll(pack, known, n - 1);
        DeriveStays(pack, Level(pack, n - 1), known, i);
      }
    }
  }

  /** Where a base is known and decoding fails, no later round makes an object either. */
  lemma RefusedIsNothing(pack: Pack, known: Known, rounds: nat, i: nat, o: Object)
    requires Injective(pack.codec) && i < |pack.entries| && Grows(known, Level(pack, rounds))
    requires BaseOf(pack, known, i).Some? && Derive(pack, known, i).None?
    ensures !Is(pack, i, o)
  {
    hide Level, Injective, BaseOf;
    if Is(pack, i, o) {
      var n: nat :| Level(pack, n)[i] == Some(o);
      var m := if n < rounds then rounds else n;
      LevelGrowsTo(pack, rounds, m);
      LevelGrowsTo(pack, n, m + 1);
      LevelAt(pack, m, i);
      BaseStays(pack, known, Level(pack, m), i);
      assert false;
    }
  }
}
