/** A publisher walks the very slice of groups the cache keeps. Removing a group moves the later ones down
    in place, and adding one writes into the cell behind the last if there is room: what the publisher reads
    depends on what happens to the cache meanwhile. */
module GroupWalk {
  import opened GroupCache

  // ---------------------------------------------------------------- the shared cells

  /** The cells behind the slice a publisher has resolved. While the cache still uses the same cells it is
      attached, and `len` is how many of them it counts as its own. */
  datatype Slice = Slice(cells: seq<string>, len: nat, attached: bool)

  predicate Valid(sl: Slice) { sl.len <= |sl.cells| }

  function Detach(sl: Slice): Slice { Slice(sl.cells, 0, false) }

  /** The first `n` cells after the one at `j` has been cut out by moving the later ones down. */
  function Shifted(s: seq<string>, n: nat, j: nat): (r: seq<string>)
    requires j < n <= |s|
    ensures |r| == |s|
  {
    s[..j] + s[j + 1..n] + s[n - 1..]
  }

  function Find(s: seq<string>, g: string): (i: nat)
    requires g in s
    ensures i < |s| && s[i] == g && g !in s[..i]
  {
    if s[0] == g then 0
    else
      var i := Find(s[1..], g);
      assert s[..i + 1] == [s[0]] + s[1..][..i];
      i + 1
  }

  /** What one event does to the cells, for the queue of the key. */
  function Act(sl: Slice, key: string, e: CacheEvent): (r: Slice)
    requires Valid(sl)
    ensures Valid(r) && |r.cells| == |sl.cells|
  {
    if !sl.attached then sl
    else
      match e
      case Loaded(k, _) => if k == key then Detach(sl) else sl
      case QueueCreated(_, _) => sl
      case QueueDeleted(k) => if k == key then Detach(sl) else sl
      case GroupCreated(k, g) =>
        if k != key || g in sl.cells[..sl.len] then sl
        else if sl.len < |sl.cells| then Slice(sl.cells[sl.len := g], sl.len + 1, true)
        else Detach(sl)
      case GroupDeleted(k, g) =>
        if k != key || g !in sl.cells[..sl.len] then sl
        else Slice(Shifted(sl.cells, sl.len, Find(sl.cells[..sl.len], g)), sl.len - 1, true)
      case Cleared => Detach(sl)
  }

  function ActAll(sl: Slice, key: string, events: seq<CacheEvent>): (r: Slice)
    requires Valid(sl)
    ensures Valid(r) && |r.cells| == |sl.cells|
  {
    if events == [] then sl else Act(ActAll(sl, key, events[..|events| - 1]), key, events[|events| - 1])
  }

  /** While attached, the cells are the cache. */
  predicate Shows(sl: Slice, t: Targets, key: string) {
    Valid(sl) && (sl.attached ==> key in t && t[key] == sl.cells[..sl.len])
  }

  lemma ActShows(sl: Slice, t: Targets, key: string, e: CacheEvent)
    requires Shows(sl, t, key)
    ensures Shows(Act(sl, key, e), ApplyEvent(t, e), key)
  {
    if sl.attached && e.GroupDeleted? && e.key == key && e.group in sl.cells[..sl.len] {
      var j := Find(sl.cells[..sl.len], e.group);
      WithoutAt(sl.cells[..sl.len], e.group, j);
      assert Shifted(sl.cells, sl.len, j)[..sl.len - 1] == sl.cells[..sl.len][..j] + sl.cells[..sl.len][j + 1..];
    }
  }

  // ---------------------------------------------------------------- in memory

  /** The list of one queue's groups in the cache. `walker` is the array some publisher is walking. */
  class GroupList {
    const key: string
    var cells: array<string>
    var len: nat

    constructor (key: string)
      ensures this.key == key && len == 0 && cells.Length == 0
    {
      this.key := key;
      cells := new string[0];
      len := 0;
    }

    ghost function View(walker: array<string>): Slice
      reads this, walker
    {
      if cells == walker then Slice(walker[..], len, true) else Slice(walker[..], 0, false)
    }

    /** Searching and appending: in place when there is room, else in new cells with some to spare. */
    method Add(g: string, spare: nat, ghost walker: array<string>)
      requires len <= cells.Length
      modifies this, cells
      ensures len <= cells.Length
      ensures View(walker) == Act(old(View(walker)), key, GroupCreated(key, g))
      ensures cells[..len] == old(cells[..len]) + if g in old(cells[..len]) then [] else [g]
    {
      for i := 0 to len
        invariant g !in cells[..i] && len == old(len) && cells == old(cells) && cells[..] == old(cells[..])
      {
        if cells[i] == g {
          return;
        }
      }
      assert cells[..len] == old(cells[..len]);
      if len < cells.Length {
        cells[len] := g;
        len := len + 1;
        return;
      }
      var wider := new string[len + 1 + spare];
      forall i | 0 <= i < len {
        wider[i] := cells[i];
      }
      wider[len] := g;
      assert wider[..len] == cells[..len];
      cells := wider;
      len := len + 1;
    }

    /** Searching, and moving the later groups down over the one found. */
    method Remove(g: string, ghost walker: array<string>)
      requires len <= cells.Length
      modifies this, cells
      ensures len <= cells.Length && cells == old(cells)
      ensures View(walker) == Act(old(View(walker)), key, GroupDeleted(key, g))
    {
      for i := 0 to len
        invariant g !in cells[..i] && len == old(len) && cells == old(cells) && cells[..] == old(cells[..])
      {
        if cells[i] == g {
          FirstFound(cells[..len], g, i);
          len := MoveDown(cells, len, i);
          return;
        }
      }
      assert cells[..len] == old(cells[..len]);
    }
  }

  lemma {:induction false} FirstFound(s: seq<string>, g: string, i: nat)
    requires i < |s| && s[i] == g && g !in s[..i]
    ensures g in s && Find(s, g) == i
  {
    assert g in s;
    if i > 0 {
      assert s[0] == s[..i][0];
      assert forall h :: h in s[1..][..i - 1] ==> h in s[..i];
      FirstFound(s[1..], g, i - 1);
    }
  }

  method MoveDown(a: array<string>, n: nat, j: nat) returns (n': nat)
    requires j < n <= a.Length
    modifies a
    ensures n' == n - 1 && a[..] == Shifted(old(a[..]), n, j)
  {
    for i := j to n - 1
      invariant forall k :: 0 <= k < a.Length ==> a[k] == if j <= k < i then old(a[k + 1]) else old(a[k])
    {
      a[i] := a[i + 1];
    }
    n' := n - 1;
  }

  // ---------------------------------------------------------------- walks

  /** `clock(0)` is how many events the cache has seen when the publisher resolves its groups, and
      `clock(c + 1)` how many when it reads the cell at `c`. */
  ghost predicate Clockwise(clock: nat -> nat, n: nat) { forall c, d :: c <= d ==> clock(c) <= clock(d) <= n }

  /** What the publisher reads, cell by cell. */
  function Walk(sl: Slice, key: string, events: seq<CacheEvent>, clock: nat -> nat): (r: seq<string>)
    requires Valid(sl) && Clockwise(clock, |events|)
    ensures |r| == sl.len
  {
    seq(sl.len, c requires 0 <= c < sl.len => ReadAt(sl, key, events, clock, c))
  }

  function ReadAt(sl: Slice, key: string, events: seq<CacheEvent>, clock: nat -> nat, c: nat): string
    requires Valid(sl) && Clockwise(clock, |events|) && c < sl.len
  {
    assert clock(0) <= clock(c + 1);
    ActAll(sl, key, events[clock(0)..clock(c + 1)]).cells[c]
  }

  predicate Removes(e: CacheEvent, key: string) { e.GroupDeleted? && e.key == key }

  /** No group of the queue is removed in this stretch of the history. */
  predicate Calm(key: string, events: seq<CacheEvent>, from: nat, to: nat)
    requires from <= to <= |events|
  {
    forall m :: from <= m < to ==> !Removes(events[m], key)
  }

  lemma ActKeeps(sl: Slice, n: nat, key: string, e: CacheEvent)
    requires Valid(sl) && n <= |sl.cells| && (sl.attached ==> n <= sl.len) && !Removes(e, key)
    ensures var r := Act(sl, key, e); r.cells[..n] == sl.cells[..n] && (r.attached ==> n <= r.len)
  {
  }

  lemma {:induction false} ActAllKeeps(sl: Slice, n: nat, key: string, events: seq<CacheEvent>)
    requires Valid(sl) && n <= |sl.cells| && (sl.attached ==> n <= sl.len)
    requires forall m :: 0 <= m < |events| ==> !Removes(events[m], key)
    ensures var r := ActAll(sl, key, events); r.cells[..n] == sl.cells[..n] && (r.attached ==> n <= r.len)
  {
    hide Act;
    if events != [] {
      var last := |events| - 1;
      ActAllKeeps(sl, n, key, events[..last]);
      ActKeeps(ActAll(sl, key, events[..last]), n, key, events[last]);
    }
  }

  /** Added groups, new queues and whole reloads never change what a publisher reads: unless a group of its
      queue is removed before its last read, it reads the groups it resolved. */
  lemma CalmWalk(sl: Slice, key: string, events: seq<CacheEvent>, clock: nat -> nat)
    requires Valid(sl) && Clockwise(clock, |events|)
    requires clock(0) <= clock(sl.len) <= |events| && Calm(key, events, clock(0), clock(sl.len))
    ensures Walk(sl, key, events, clock) == sl.cells[..sl.len]
  {
    hide ActAll;
    forall c | 0 <= c < sl.len ensures ReadAt(sl, key, events, clock, c) == sl.cells[c] {
      var past := events[clock(0)..clock(c + 1)];
      assert clock(c + 1) <= clock(sl.len);
      ActAllKeeps(sl, sl.len, key, past);
      assert ActAll(sl, key, past).cells[..sl.len][c] == sl.cells[..sl.len][c];
    }
  }

  // ---------------------------------------------------------------- exactly when removals are harmless

  /** All removals during the walk come after its first `k` reads. */
  ghost predicate CalmUntil(key: string, events: seq<CacheEvent>, clock: nat -> nat, k: nat) {
    clock(0) <= clock(k) <= |events| && Calm(key, events, clock(0), clock(k))
  }

  /** Everything that happens, happens right before the last of `n` reads. */
  function AtTheEnd(n: nat, events: nat): nat -> nat { c => if c < n then 0 else events }

  /** Two events right before the last read. */
  lemma LateWalk(sl: Slice, key: string, a: CacheEvent, b: CacheEvent)
    requires Valid(sl) && sl.len >= 1
    ensures Clockwise(AtTheEnd(sl.len, 2), 2)
    ensures var w := Walk(sl, key, [a, b], AtTheEnd(sl.len, 2));
      && w[sl.len - 1] == Act(Act(sl, key, a), key, b).cells[sl.len - 1]
      && forall c :: 0 <= c < sl.len - 1 ==> w[c] == sl.cells[c]
  {
    hide Act, ActAll;
    assert Clockwise(AtTheEnd(sl.len, 2), 2);
    TwoEvents(sl, key, a, b);
  }

  lemma TwoEvents(sl: Slice, key: string, a: CacheEvent, b: CacheEvent)
    requires Valid(sl)
    ensures [a, b][0..0] == [] && [a, b][0..2] == [a, b]
    ensures ActAll(sl, key, []) == sl && ActAll(sl, key, [a, b]) == Act(Act(sl, key, a), key, b)
  {
    hide Act;
    assert [a, b][..1] == [a] && [a][..0] == [];
    assert ActAll(sl, key, [a]) == Act(sl, key, a);
  }

  function TotalLength(s: seq<string>): nat { if s == [] then 0 else |s[0]| + TotalLength(s[1..]) }

  /** A name that is not in the list: one longer than all of it. */
  lemma {:induction false} LongerNotIn(s: seq<string>, name: string)
    requires |name| > TotalLength(s)
    ensures name !in s
  {
    if s != [] {
      LongerNotIn(s[1..], name);
    }
  }

  /** The publisher is sure to read the groups it resolved, whatever else happens, exactly when no group of
      the queue is removed before its last read: one removal and one addition right before it are enough. */
  lemma SnapshotReadIff(sl: Slice, key: string, k: nat)
    requires Valid(sl) && sl.attached && sl.len >= 1 && NoDup(sl.cells[..sl.len])
    ensures (forall events, clock :: Clockwise(clock, |events|) && CalmUntil(key, events, clock, k) ==>
               Walk(sl, key, events, clock) == sl.cells[..sl.len])
        <==> k >= sl.len
  {
    if k >= sl.len {
      forall events, clock | Clockwise(clock, |events|) && CalmUntil(key, events, clock, k)
        ensures Walk(sl, key, events, clock) == sl.cells[..sl.len]
      {
        assert clock(sl.len) <= clock(k);
        CalmWalk(sl, key, events, clock);
      }
    } else {
      ReplacedLast(sl, key, k);
    }
  }

  lemma DeleteAct(sl: Slice, key: string, j: nat)
    requires Valid(sl) && sl.attached && NoDup(sl.cells[..sl.len]) && j < sl.len
    ensures Act(sl, key, GroupDeleted(key, sl.cells[j])) == Slice(Shifted(sl.cells, sl.len, j), sl.len - 1, true)
  {
    hide Find, Shifted;
    FirstFound(sl.cells[..sl.len], sl.cells[j], j);
  }

  lemma LastSwapped(sl: Slice, key: string, other: string)
    requires Valid(sl) && sl.attached && sl.len >= 1 && NoDup(sl.cells[..sl.len]) && other !in sl.cells[..sl.len]
    ensures Act(Act(sl, key, GroupDeleted(key, sl.cells[sl.len - 1])), key, GroupCreated(key, other)).cells
         == sl.cells[sl.len - 1 := other]
  {
    hide Find;
    var n := sl.len;
    DeleteAct(sl, key, n - 1);
    assert Shifted(sl.cells, n, n - 1) == sl.cells;
    assert forall g :: g in sl.cells[..n - 1] ==> g in sl.cells[..n];
  }

  lemma ReplacedLast(sl: Slice, key: string, k: nat)
    requires Valid(sl) && sl.attached && k < sl.len && NoDup(sl.cells[..sl.len])
    ensures exists events, clock ::
      && Clockwise(clock, |events|) && CalmUntil(key, events, clock, k)
      && Walk(sl, key, events, clock) != sl.cells[..sl.len]
  {
    hide Act, Walk, TotalLength, NoDup;
    var n, groups := sl.len, sl.cells[..sl.len];
    var other := seq(TotalLength(groups) + 1, _ => 'x');
    LongerNotIn(groups, other);
    assert groups[n - 1] in groups;
    LastSwapped(sl, key, other);
    var events := [GroupDeleted(key, groups[n - 1]), GroupCreated(key, other)];
    LateWalk(sl, key, events[0], events[1]);
    assert CalmUntil(key, events, AtTheEnd(n, 2), k);
    assert Walk(sl, key, events, AtTheEnd(n, 2))[n - 1] != groups[n - 1];
  }

  /** And it is sure to serve no group twice exactly then, too, if it has more than one to serve. */
  lemma NoneTwiceIff(sl: Slice, key: string, k: nat)
    requires Valid(sl) && sl.attached && sl.len >= 2 && NoDup(sl.cells[..sl.len])
    ensures (forall events, clock :: Clockwise(clock, |events|) && CalmUntil(key, events, clock, k) ==>
               NoDup(Walk(sl, key, events, clock)))
        <==> k >= sl.len
  {
    if k >= sl.len {
      forall events, clock | Clockwise(clock, |events|) && CalmUntil(key, events, clock, k)
        ensures NoDup(Walk(sl, key, events, clock))
      {
        assert clock(sl.len) <= clock(k);
        CalmWalk(sl, key, events, clock);
      }
    } else {
      FirstAgain(sl, key, k);
    }
  }

  lemma FirstAgain(sl: Slice, key: string, k: nat)
    requires Valid(sl) && sl.attached && k < sl.len && sl.len >= 2 && NoDup(sl.cells[..sl.len])
    ensures exists events, clock ::
      && Clockwise(clock, |events|) && CalmUntil(key, events, clock, k)
      && !NoDup(Walk(sl, key, events, clock))
  {
    var n, groups := sl.len, sl.cells[..sl.len];
    var a, b := GroupDeleted(key, groups[0]), GroupCreated(key, groups[0]);
    LateWalk(sl, key, a, b);
    FirstFound(groups, groups[0], 0);
    assert Shifted(sl.cells, n, 0)[..n - 1] == groups[1..];
    assert groups[0] !in groups[1..];
    assert CalmUntil(key, [a, b], AtTheEnd(n, 2), k);
    var w := Walk(sl, key, [a, b], AtTheEnd(n, 2));
    assert w[0] == w[n - 1];
  }

  // ---------------------------------------------------------------- single histories

  /** Everything happens after the first `k` reads. */
  function After(k: nat, events: nat): nat -> nat { c => if c <= k then 0 else events }

  /** What a publisher reads when, after its first `k` reads, group `j` is removed and nothing else happens. */
  predicate ShiftedFrom(w: seq<string>, s: seq<string>, k: nat, j: nat) {
    |w| == |s| && forall c :: 0 <= c < |s| ==> w[c] == s[if c < k || c < j || c == |s| - 1 then c else c + 1]
  }

  lemma OneRemovalWalk(sl: Slice, key: string, k: nat, j: nat)
    requires Valid(sl) && sl.attached && NoDup(sl.cells[..sl.len]) && k <= sl.len && j < sl.len
    ensures Clockwise(After(k, 1), 1)
    ensures ShiftedFrom(Walk(sl, key, [GroupDeleted(key, sl.cells[j])], After(k, 1)), sl.cells[..sl.len], k, j)
  {
    var e, clock := GroupDeleted(key, sl.cells[j]), After(k, 1);
    assert Clockwise(clock, 1);
    hide Act, ActAll, Find, Shifted, NoDup;
    DeleteAct(sl, key, j);
    OneEvent(sl, key, e);
    forall c: nat | c < sl.len
      ensures ReadAt(sl, key, [e], clock, c) == sl.cells[if c < k || c < j || c == sl.len - 1 then c else c + 1]
    {
      ShiftedAt(sl.cells, sl.len, j, c);
    }
  }

  lemma ShiftedAt(s: seq<string>, n: nat, j: nat, c: nat)
    requires j < n <= |s| && c < |s|
    ensures Shifted(s, n, j)[c] == s[if c < j || c >= n - 1 then c else c + 1]
  {
  }

  lemma OneEvent(sl: Slice, key: string, e: CacheEvent)
    requires Valid(sl)
    ensures [e][0..0] == [] && [e][0..1] == [e]
    ensures ActAll(sl, key, []) == sl && ActAll(sl, key, [e]) == Act(sl, key, e)
  {
    hide Act;
    assert [e][..0] == [];
  }

  lemma ShiftedMeaning(w: seq<string>, s: seq<string>, k: nat, j: nat)
    requires NoDup(s) && k <= |s| && j < |s| && ShiftedFrom(w, s, k, j)
    ensures NoDup(w) <==> j == |s| - 1 || k >= |s| - 1
    ensures j == |s| - 1 || k >= |s| - 1 ==> w == s
    ensures j < k < |s| - 1 ==> s[k] !in w
  {
    var n := |s|;
    if j < n - 1 && k < n - 1 {
      assert w[n - 2] == s[n - 1] && w[n - 1] == s[n - 1];
    }
  }

  /** One removal, and nothing else, is harmless exactly when it removes the last group or comes when at most
      one read is left. Otherwise the last group is served twice, and a removal behind the publisher's
      position makes it skip a group that still exists. */
  lemma OneRemovalIff(sl: Slice, key: string, k: nat, j: nat)
    requires Valid(sl) && sl.attached && NoDup(sl.cells[..sl.len]) && k <= sl.len && j < sl.len
    ensures Clockwise(After(k, 1), 1)
    ensures var s, w := sl.cells[..sl.len], Walk(sl, key, [GroupDeleted(key, sl.cells[j])], After(k, 1));
      && (NoDup(w) <==> j == |s| - 1 || k >= |s| - 1)
      && (j == |s| - 1 || k >= |s| - 1 ==> w == s)
      && (j < k < |s| - 1 ==> s[k] !in w)
  {
    OneRemovalWalk(sl, key, k, j);
    ShiftedMeaning(Walk(sl, key, [GroupDeleted(key, sl.cells[j])], After(k, 1)), sl.cells[..sl.len], k, j);
  }

  /** Removing the last group twice is not harmless once a group is added: after the first of three reads the
      third group goes, then the second, and the third comes back, into the second one's cell. */
  lemma TwoRemovalsServeTwice(key: string, x: string, y: string, z: string)
    requires x != y && y != z && x != z
    ensures Clockwise(After(1, 3), 3)
    ensures Walk(Slice([x, y, z], 3, true), key,
                 [GroupDeleted(key, z), GroupDeleted(key, y), GroupCreated(key, z)], After(1, 3)) == [x, z, z]
  {
    hide ActAll, Act;
    var sl, clock := Slice([x, y, z], 3, true), After(1, 3);
    assert Clockwise(clock, 3);
    DropsLast(key, x, y, z);
    ThreeEvents(sl, key, GroupDeleted(key, z), GroupDeleted(key, y), GroupCreated(key, z));
  }

  lemma DropsLast(key: string, x: string, y: string, z: string)
    requires x != y && y != z && x != z
    ensures Act(Slice([x, y, z], 3, true), key, GroupDeleted(key, z)) == Slice([x, y, z], 2, true)
    ensures Act(Slice([x, y, z], 2, true), key, GroupDeleted(key, y)) == Slice([x, y, z], 1, true)
    ensures Act(Slice([x, y, z], 1, true), key, GroupCreated(key, z)) == Slice([x, z, z], 2, true)
  {
    hide Find;
    assert [x, y, z][..3] == [x, y, z] && [x, y, z][..2] == [x, y] && [x, y, z][..1] == [x];
    FirstFound([x, y, z], z, 2);
    FirstFound([x, y], y, 1);
    assert Shifted([x, y, z], 3, 2) == [x, y, z] == Shifted([x, y, z], 2, 1);
  }

  lemma ThreeEvents(sl: Slice, key: string, a: CacheEvent, b: CacheEvent, c: CacheEvent)
    requires Valid(sl)
    ensures [a, b, c][0..0] == [] && [a, b, c][0..3] == [a, b, c]
    ensures ActAll(sl, key, []) == sl
    ensures ActAll(sl, key, [a, b, c]) == Act(Act(Act(sl, key, a), key, b), key, c)
  {
    hide Act;
    assert [a, b, c][..2] == [a, b] && [a, b][..1] == [a] && [a][..0] == [];
    assert ActAll(sl, key, [a]) == Act(sl, key, a);
    assert ActAll(sl, key, [a, b]) == Act(Act(sl, key, a), key, b);
  }
}
