/**
 The safe iterator. While it runs, rehash steps are paused and the user may add, find, replace and
 delete (any key except the one the saved next pointer refers to), and additions may start an expansion.
 Every entry present from start to finish is returned exactly once.
 */
module DictIterator {
  import opened Basics
  import opened Words
  import opened DictState
  import opened DictEdits
  import opened DictOps

  /** Table, bucket index, whether an entry is held, and the key of the saved next entry. */
  datatype Iter<K> = Iter(table: nat, index: int, held: bool, next: Option<K>)

  function FreshIter<K>(): Iter<K> {
    Iter(0, -1, false, None)
  }

  function Live<K, V>(s: State<K, V>, it: Iter<K>): Table<K, V> {
    if it.table == 0 then s.t0 else s.t1
  }

  /** The part of a chain that starts at a key. */
  function After<K(==), V>(c: seq<Entry<K, V>>, k: K): seq<Entry<K, V>> {
    if c == [] then [] else if c[0].key == k then c else After(c[1..], k)
  }

  function FirstKey<K, V>(c: seq<Entry<K, V>>): Option<K> {
    if c == [] then None else Some(c[0].key)
  }

  ghost predicate IterOk<K, V>(s: State<K, V>, it: Iter<K>)
    requires StateShape(s)
  {
    && it.table <= 1
    && (it.table == 1 ==> Rehashing(s))
    && -1 <= it.index <= |Live(s, it).buckets|
    && (it.held ==> 0 <= it.index < |Live(s, it).buckets|)
    && (it.held && it.next.Some? ==> ChainFind(Live(s, it).buckets[it.index], it.next.value).Some?)
  }

  /** One `dictNext`: follow the saved next pointer, or go to the next non-empty bucket. */
  function Step<K(==), V>(s: State<K, V>, it: Iter<K>): (r: (Iter<K>, Option<Entry<K, V>>))
    requires StateShape(s) && IterOk(s, it)
    decreases 1 - it.table, |Live(s, it).buckets| - it.index, if it.held then 1 else 0
  {
    if it.held then
      match it.next
      case None => Step(s, it.(held := false))
      case Some(k) =>
        AfterHead(Live(s, it).buckets[it.index], k);
        var rest := After(Live(s, it).buckets[it.index], k);
        (it.(next := FirstKey(rest[1..])), Some(rest[0]))
    else if it.index + 1 < |Live(s, it).buckets| then
      Enter(s, it.(index := it.index + 1))
    else if Rehashing(s) && it.table == 0 then
      Enter(s, it.(table := 1, index := 0))
    else
      (it.(index := it.index + 1), None)
  }

  /** Return the head of a bucket, or go on when it is empty. */
  function Enter<K(==), V>(s: State<K, V>, it: Iter<K>): (r: (Iter<K>, Option<Entry<K, V>>))
    requires StateShape(s) && IterOk(s, it) && !it.held && 0 <= it.index < |Live(s, it).buckets|
    decreases 1 - it.table, |Live(s, it).buckets| - it.index, 2
  {
    var c := Live(s, it).buckets[it.index];
    if c == [] then Step(s, it)
    else (it.(held := true, next := FirstKey(c[1..])), Some(c[0]))
  }

  lemma {:induction false} AfterHead<K, V>(c: seq<Entry<K, V>>, k: K)
    requires ChainFind(c, k).Some?
    ensures After(c, k) != [] && After(c, k)[0].key == k
  {
    if c[0].key != k { AfterHead(c[1..], k); }
  }

  // ---- What is still to come ----

  /** A key of a table that the iterator, being in that table, has still to return. */
  ghost predicate TablePending<K, V>(hash: K -> nat, t: Table<K, V>, it: Iter<K>, k: K)
    requires TableShape(t)
  {
    && Lookup(hash, t, k).Some?
    && (|| Slot(hash, t, k) > it.index
        || (Slot(hash, t, k) == it.index && it.held && it.next.Some?
            && ChainFind(After(t.buckets[it.index], it.next.value), k).Some?))
  }

  ghost predicate Pending<K, V>(hash: K -> nat, s: State<K, V>, it: Iter<K>, k: K)
    requires StateShape(s)
  {
    || TablePending(hash, Live(s, it), it, k)
    || (it.table == 0 && Lookup(hash, s.t1, k).Some?)
  }

  lemma {:induction false} AfterTail<K, V>(c: seq<Entry<K, V>>, k: K)
    requires ChainFind(c, k).Some?
    requires forall a, b :: 0 <= a < b < |c| ==> c[a].key != c[b].key
    ensures var r := After(c, k);
            && r != [] && r[0].key == k && r[0] in c
            && (forall a, b :: 0 <= a < b < |r| ==> r[a].key != r[b].key)
            && (r[1..] != [] ==> ChainFind(c, r[1].key).Some? && After(c, r[1].key) == r[1..])
            && forall k' :: ChainFind(r[1..], k').Some? <==> ChainFind(r, k').Some? && k' != k
  {
    if c[0].key == k {
      forall k' ensures ChainFind(c[1..], k').Some? <==> ChainFind(c, k').Some? && k' != k {
        ChainFindIff(c[1..], k');
      }
      if c[1..] != [] {
        assert After(c, c[1].key) == After(c[1..], c[1].key) == c[1..];
      }
    } else {
      AfterTail(c[1..], k);
      var r := After(c, k);
      if r[1..] != [] {
        assert r[1].key != c[0].key by {
          ChainFindIff(c[1..], r[1].key);
        }
      }
    }
  }

  /** What a step from an iterator position promises. */
  ghost predicate StepGood<K(!new), V>(hash: K -> nat, s: State<K, V>, it: Iter<K>, it': Iter<K>,
      r: Option<Entry<K, V>>)
    requires Inv(hash, s)
  {
    match r
    case None => forall k :: !Pending(hash, s, it, k)
    case Some(e) =>
      && IterOk(s, it') && it'.held
      && Get(hash, s, e.key) == Some(e.val)
      && Pending(hash, s, it, e.key)
      && it'.next != Some(e.key)
      && forall k :: Pending(hash, s, it', k) <==> Pending(hash, s, it, k) && k != e.key
  }

  /** The position just before bucket i. */
  function Before<K>(it: Iter<K>): Iter<K> {
    it.(index := it.index - 1, held := false)
  }

  lemma {:induction false} EnterFull<K(!new), V>(hash: K -> nat, s: State<K, V>, it: Iter<K>)
    requires Inv(hash, s) && IterOk(s, it) && !it.held && 0 <= it.index < |Live(s, it).buckets|
    requires Live(s, it).buckets[it.index] != []
    ensures var c := Live(s, it).buckets[it.index];
            StepGood(hash, s, Before(it), it.(held := true, next := FirstKey(c[1..])), Some(c[0]))
  {
    var t := Live(s, it);
    var c := t.buckets[it.index];
    var it' := it.(held := true, next := FirstKey(c[1..]));
    ChainFindAt(c, 0);
    AfterTail(c, c[0].key);
    assert After(c, c[0].key) == c;
    forall k
      ensures TablePending(hash, t, it', k) <==> TablePending(hash, t, Before(it), k) && k != c[0].key
    {
    }
    assert Lookup(hash, t, c[0].key) == Some(c[0].val);
  }

  lemma {:induction false} StepFollows<K(!new), V>(hash: K -> nat, s: State<K, V>, it: Iter<K>)
    requires Inv(hash, s) && IterOk(s, it) && it.held && it.next.Some?
    ensures StepGood(hash, s, it, Step(s, it).0, Step(s, it).1)
  {
    var t := Live(s, it);
    var c := t.buckets[it.index];
    var k := it.next.value;
    AfterTail(c, k);
    var r := After(c, k);
    var j :| 0 <= j < |c| && c[j] == r[0];
    ChainFindAt(c, j);
    var it' := it.(next := FirstKey(r[1..]));
    assert ChainFind(r, k).Some?;
    forall k'
      ensures TablePending(hash, t, it', k') <==> TablePending(hash, t, it, k') && k' != k
    {
    }
  }

  /** `dictNext` returns a pending entry and leaves exactly the others pending; NULL means none was left. */
  lemma {:induction false} StepLemma<K(!new), V>(hash: K -> nat, s: State<K, V>, it: Iter<K>)
    requires Inv(hash, s) && IterOk(s, it)
    ensures StepGood(hash, s, it, Step(s, it).0, Step(s, it).1)
    decreases 1 - it.table, |Live(s, it).buckets| - it.index, if it.held then 1 else 0
  {
    var t := Live(s, it);
    if it.held {
      if it.next.Some? {
        StepFollows(hash, s, it);
      } else {
        StepLemma(hash, s, it.(held := false));
        SamePending(hash, s, it, it.(held := false), Step(s, it).0, Step(s, it).1);
      }
    } else if it.index + 1 < |t.buckets| {
      var on := it.(index := it.index + 1);
      assert Before(on) == it;
      EnterLemma(hash, s, on);
    } else if Rehashing(s) && it.table == 0 {
      var on := it.(table := 1, index := 0);
      EnterLemma(hash, s, on);
      SamePending(hash, s, it, Before(on), Step(s, it).0, Step(s, it).1);
    }
  }

  /** Two positions with the same keys to come are as good a start for a step. */
  lemma {:induction false} SamePending<K(!new), V>(hash: K -> nat, s: State<K, V>, it: Iter<K>, on: Iter<K>,
      it': Iter<K>, r: Option<Entry<K, V>>)
    requires Inv(hash, s) && IterOk(s, it) && it.table <= 1 && StepGood(hash, s, on, it', r)
    requires (it.held && it.next == None && on == it.(held := false))
      || (!it.held && it.index + 1 >= |Live(s, it).buckets| && Rehashing(s) && it.table == 0
          && on == Before(it.(table := 1, index := 0)))
    ensures StepGood(hash, s, it, it', r)
  {
    assert forall k :: Pending(hash, s, it, k) <==> Pending(hash, s, on, k);
  }

  lemma {:induction false} EnterLemma<K(!new), V>(hash: K -> nat, s: State<K, V>, it: Iter<K>)
    requires Inv(hash, s) && IterOk(s, it) && !it.held && 0 <= it.index < |Live(s, it).buckets|
    ensures StepGood(hash, s, Before(it), Enter(s, it).0, Enter(s, it).1)
    decreases 1 - it.table, |Live(s, it).buckets| - it.index, 2
  {
    var t := Live(s, it);
    if t.buckets[it.index] == [] {
      forall k
        ensures Pending(hash, s, it, k) <==> Pending(hash, s, Before(it), k)
      {
      }
      StepLemma(hash, s, it);
    } else {
      EnterFull(hash, s, it);
    }
  }

  // ---- What the user may do between two calls ----

  /** A change of one chain that the iterator does not notice for key k. */
  ghost predicate ChainKept<K, V>(c: seq<Entry<K, V>>, c': seq<Entry<K, V>>, next: Option<K>, k: K) {
    && ChainFind(c', k).Some? == ChainFind(c, k).Some?
    && (next.Some? && ChainFind(c, next.value).Some? ==>
          && ChainFind(c', next.value).Some?
          && ChainFind(After(c', next.value), k).Some? == ChainFind(After(c, next.value), k).Some?)
  }

  lemma {:induction false} PushKept<K, V>(c: seq<Entry<K, V>>, e: Entry<K, V>, next: Option<K>, k: K)
    requires ChainFind(c, e.key) == None && k != e.key
    ensures ChainKept(c, [e] + c, next, k)
  {
    assert ([e] + c)[1..] == c;
  }

  lemma {:induction false} OverwriteKept<K, V>(c: seq<Entry<K, V>>, j: nat, v: V, next: Option<K>, k: K)
    requires j < |c|
    ensures ChainKept(c, c[j := Entry(c[j].key, v)], next, k)
  {
    var d := c[j := Entry(c[j].key, v)];
    if j > 0 {
      assert d[1..] == c[1..][j - 1 := Entry(c[j].key, v)];
      OverwriteKept(c[1..], j - 1, v, next, k);
      OverwriteKept(c[1..], j - 1, v, None, k);
    }
  }

  lemma {:induction false} UnlinkKept<K, V>(c: seq<Entry<K, V>>, j: nat, next: Option<K>, k: K)
    requires j < |c| && k != c[j].key && next != Some(c[j].key)
    ensures ChainKept(c, c[..j] + c[j + 1..], next, k)
  {
    var d := c[..j] + c[j + 1..];
    if j == 0 {
      assert d == c[1..];
    } else {
      assert d[1..] == c[1..][..j - 1] + c[1..][j..];
      UnlinkKept(c[1..], j - 1, next, k);
    }
  }

  /** Changing a chain unnoticed keeps what is pending in its table. */
  lemma {:induction false} TableKept<K, V>(hash: K -> nat, t: Table<K, V>, i: nat, c: seq<Entry<K, V>>, it: Iter<K>,
      k: K)
    requires TableShape(t) && i < |t.buckets| && ChainKept(t.buckets[i], c, if it.held then it.next else None, k)
    requires it.held ==> 0 <= it.index < |t.buckets|
    requires it.held && it.next.Some? ==> ChainFind(t.buckets[it.index], it.next.value).Some?
    ensures TableShape(SetBucket(t, i, c))
    ensures Lookup(hash, SetBucket(t, i, c), k).Some? == Lookup(hash, t, k).Some?
    ensures TablePending(hash, SetBucket(t, i, c), it, k) == TablePending(hash, t, it, k)
    ensures it.held && it.next.Some? ==> ChainFind(SetBucket(t, i, c).buckets[it.index], it.next.value).Some?
  {
  }

  /** The iterator position survives, and key k is present and pending afterwards exactly as before. */
  ghost predicate Unnoticed<K, V>(hash: K -> nat, s: State<K, V>, s': State<K, V>, it: Iter<K>, k: K)
    requires StateShape(s) && StateShape(s')
  {
    && IterOk(s', it)
    && Get(hash, s', k).Some? == Get(hash, s, k).Some?
    && Pending(hash, s', it, k) == Pending(hash, s, it, k)
  }

  lemma {:induction false} FirstKept<K, V>(hash: K -> nat, s: State<K, V>, i: nat, c: seq<Entry<K, V>>, it: Iter<K>,
      k: K)
    requires StateShape(s) && IterOk(s, it) && i < |s.t0.buckets| && StateShape(s.(t0 := SetBucket(s.t0, i, c)))
    requires ChainKept(s.t0.buckets[i], c, if it.held then it.next else None, k)
    ensures Unnoticed(hash, s, s.(t0 := SetBucket(s.t0, i, c)), it, k)
  {
    if it.table == 0 {
      TableKept(hash, s.t0, i, c, it, k);
    } else {
      TableKept(hash, s.t0, i, c, FreshIter(), k);
    }
  }

  lemma {:induction false} SecondKept<K, V>(hash: K -> nat, s: State<K, V>, i: nat, c: seq<Entry<K, V>>, it: Iter<K>,
      k: K)
    requires StateShape(s) && IterOk(s, it) && i < |s.t1.buckets| && StateShape(s.(t1 := SetBucket(s.t1, i, c)))
    requires ChainKept(s.t1.buckets[i], c, if it.held then it.next else None, k)
    ensures Unnoticed(hash, s, s.(t1 := SetBucket(s.t1, i, c)), it, k)
  {
    if it.table == 1 {
      TableKept(hash, s.t1, i, c, it, k);
    } else {
      TableKept(hash, s.t1, i, c, FreshIter(), k);
    }
  }

  lemma {:induction false} StartKept<K(!new), V>(hash: K -> nat, s: State<K, V>, exp: nat, it: Iter<K>, k: K)
    requires Inv(hash, s) && IterOk(s, it) && exp <= 60 && !Rehashing(s) && StateShape(Start(s, exp))
    ensures Unnoticed(hash, s, Start(s, exp), it, k)
  {
    FreshTableOk<K, V>(hash, exp);
  }

  lemma {:induction false} LinkUnnoticed<K(!new), V>(hash: K -> nat, s: State<K, V>, e: Entry<K, V>, it: Iter<K>, k: K)
    requires Inv(hash, s) && IterOk(s, it) && s.t0.exp != -1 && Get(hash, s, e.key) == None && k != e.key
    requires StateShape(Insert(hash, s, e))
    ensures Unnoticed(hash, s, Insert(hash, s, e), it, k)
  {
    var t := if Rehashing(s) then s.t1 else s.t0;
    var h := Slot(hash, t, e.key);
    PushKept(t.buckets[h], e, if it.held then it.next else None, k);
    if Rehashing(s) {
      SecondKept(hash, s, h, [e] + t.buckets[h], it, k);
    } else {
      FirstKept(hash, s, h, [e] + t.buckets[h], it, k);
    }
  }

  lemma {:induction false} SetUnnoticed<K(!new), V>(hash: K -> nat, s: State<K, V>, first: bool, i: nat, j: nat,
      v: V, it: Iter<K>, k: K)
    requires Inv(hash, s) && IterOk(s, it) && HasEntry(s, first, i, j) && StateShape(Overwrite(s, first, i, j, v))
    ensures Unnoticed(hash, s, Overwrite(s, first, i, j, v), it, k)
  {
    var c := (if first then s.t0 else s.t1).buckets[i];
    OverwriteKept(c, j, v, if it.held then it.next else None, k);
    if first {
      FirstKept(hash, s, i, c[j := Entry(c[j].key, v)], it, k);
    } else {
      SecondKept(hash, s, i, c[j := Entry(c[j].key, v)], it, k);
    }
  }

  lemma {:induction false} DropUnnoticed<K(!new), V>(hash: K -> nat, s: State<K, V>, first: bool, i: nat, j: nat,
      it: Iter<K>, k: K)
    requires Inv(hash, s) && IterOk(s, it) && HasEntry(s, first, i, j) && StateShape(Unlink(s, first, i, j))
    requires var x := (if first then s.t0 else s.t1).buckets[i][j].key; k != x && (it.held ==> it.next != Some(x))
    ensures Unnoticed(hash, s, Unlink(s, first, i, j), it, k)
  {
    var c := (if first then s.t0 else s.t1).buckets[i];
    UnlinkKept(c, j, if it.held then it.next else None, k);
    if first {
      FirstKept(hash, s, i, c[..j] + c[j + 1..], it, k);
    } else {
      SecondKept(hash, s, i, c[..j] + c[j + 1..], it, k);
    }
  }

  /**
   No edit that spares the saved next entry disturbs the iteration, for any key that is not itself added or
   deleted.
   */
  lemma {:induction false} EditUnnoticed<K(!new), V(!new)>(hash: K -> nat, s: State<K, V>, s': State<K, V>,
      gone: set<K>, it: Iter<K>, k: K)
    requires Inv(hash, s) && StateShape(s') && IterOk(s, it) && EditStep(hash, s, s', gone)
    requires it.held && it.next.Some? ==> it.next.value !in gone
    requires k !in gone && Get(hash, s, k).Some?
    ensures Unnoticed(hash, s, s', it, k)
  {
    var d :| Enabled(hash, s, d, gone) && s' == Apply(hash, s, d, gone);
    match d
    case Keep =>
    case Link(e) => LinkUnnoticed(hash, s, e, it, k);
    case Set(first, i, j, v) => SetUnnoticed(hash, s, first, i, j, v, it, k);
    case Drop(first, i, j) => DropUnnoticed(hash, s, first, i, j, it, k);
    case Grow(exp) => StartKept(hash, s, exp, it, k);
  }

  // ---- Whole iterations ----

  /** A point of an iteration: the dictionary, the iterator and the keys returned so far. */
  datatype Point<K, V> = Point(s: State<K, V>, it: Iter<K>, log: seq<K>)

  /** The user edits the dictionary, or the iterator returns its next entry. */
  ghost predicate Move<K(!new), V(!new)>(hash: K -> nat, p: Point<K, V>, q: Point<K, V>)
    requires Inv(hash, p.s) && IterOk(p.s, p.it)
  {
    || (exists gone :: EditStep(hash, p.s, q.s, gone) && (p.it.held && p.it.next.Some? ==> p.it.next.value !in gone)
                       && q.it == p.it && q.log == p.log)
    || (var (it, r) := Step(p.s, p.it); r.Some? && q == Point(p.s, it, p.log + [r.value.key]))
  }

  /** The tables are sound and hold some map, and the iterator's position is a place in them. */
  ghost predicate Sound<K(!new), V(!new)>(hash: K -> nat, p: Point<K, V>) {
    Inv(hash, p.s) && IterOk(p.s, p.it) && exists m :: Represents(hash, p.s, m)
  }

  /** An iteration from a fresh iterator on a sound dictionary to the call that returns NULL. */
  ghost predicate Iteration<K(!new), V(!new)>(hash: K -> nat, run: seq<Point<K, V>>) {
    && |run| > 0 && run[0].it == FreshIter() && run[0].log == []
    && Inv(hash, run[0].s) && (exists m :: Represents(hash, run[0].s, m))
    && (forall i :: 0 <= i < |run| - 1 && Sound(hash, run[i]) ==> Move(hash, run[i], run[i + 1]))
    && (Sound(hash, run[|run| - 1]) ==> Step(run[|run| - 1].s, run[|run| - 1].it).1 == None)
  }

  ghost predicate Throughout<K(!new), V(!new)>(hash: K -> nat, run: seq<Point<K, V>>, k: K) {
    forall i :: 0 <= i < |run| && Sound(hash, run[i]) ==> Get(hash, run[i].s, k).Some?
  }

  /** A key that is never deleted is either pending and unreturned, or no longer pending and returned once. */
  ghost predicate OnceSoFar<K, V>(hash: K -> nat, p: Point<K, V>, k: K)
    requires StateShape(p.s)
  {
    multiset(p.log)[k] == if Pending(hash, p.s, p.it, k) then 0 else 1
  }

  /** An edit after which a present key is still there did not delete it. */
  lemma {:induction false} EditSpares<K(!new), V(!new)>(hash: K -> nat, s: State<K, V>, s': State<K, V>,
      gone: set<K>, k: K)
    requires Inv(hash, s) && Inv(hash, s') && EditStep(hash, s, s', gone) && Get(hash, s', k).Some?
    ensures EditStep(hash, s, s', gone - {k})
  {
    var d :| Enabled(hash, s, d, gone) && s' == Apply(hash, s, d, gone);
    if d.Drop? {
      var t := if d.first then s.t0 else s.t1;
      UnlinkOk(hash, t, d.i, d.j);
      assert t.buckets[d.i][d.j].key != k;
    }
    assert Enabled(hash, s, d, gone - {k}) && s' == Apply(hash, s, d, gone - {k});
  }

  /** Edits never take buckets away and never end a rehash. */
  lemma {:induction false} EditSizes<K(!new), V(!new)>(hash: K -> nat, s: State<K, V>, s': State<K, V>, gone: set<K>)
    requires StateShape(s) && EditStep(hash, s, s', gone)
    ensures |s'.t0.buckets| >= |s.t0.buckets| && |s'.t1.buckets| >= |s.t1.buckets|
    ensures Rehashing(s) ==> Rehashing(s')
  {
    var d :| Enabled(hash, s, d, gone) && s' == Apply(hash, s, d, gone);
  }

  /** The iterator's position stays valid across every move. */
  lemma {:induction false} MoveKeepsIter<K(!new), V(!new)>(hash: K -> nat, p: Point<K, V>, q: Point<K, V>)
    requires Inv(hash, p.s) && Inv(hash, q.s) && IterOk(p.s, p.it) && Move(hash, p, q)
    ensures IterOk(q.s, q.it)
  {
    if gone :| EditStep(hash, p.s, q.s, gone) && (p.it.held && p.it.next.Some? ==> p.it.next.value !in gone)
               && q.it == p.it && q.log == p.log {
      if p.it.held && p.it.next.Some? {
        HeldPresent(hash, p.s, p.it);
        EditUnnoticed(hash, p.s, q.s, gone, p.it, p.it.next.value);
      } else {
        EditSizes(hash, p.s, q.s, gone);
      }
    } else {
      StepLemma(hash, p.s, p.it);
    }
  }

  lemma {:induction false} HeldPresent<K(!new), V>(hash: K -> nat, s: State<K, V>, it: Iter<K>)
    requires Inv(hash, s) && IterOk(s, it) && it.held && it.next.Some?
    ensures Get(hash, s, it.next.value).Some?
  {
    var c := Live(s, it).buckets[it.index];
    ChainFindIff(c, it.next.value);
    var j :| 0 <= j < |c| && c[j].key == it.next.value;
    assert Slot(hash, Live(s, it), it.next.value) == it.index;
  }

  lemma {:induction false} MoveOnce<K(!new), V(!new)>(hash: K -> nat, p: Point<K, V>, q: Point<K, V>, k: K)
    requires Inv(hash, p.s) && Inv(hash, q.s) && IterOk(p.s, p.it) && Move(hash, p, q)
    requires Get(hash, p.s, k).Some? && Get(hash, q.s, k).Some?
    requires OnceSoFar(hash, p, k)
    ensures OnceSoFar(hash, q, k)
  {
    StepLemma(hash, p.s, p.it);
    if gone :| EditStep(hash, p.s, q.s, gone) && (p.it.held && p.it.next.Some? ==> p.it.next.value !in gone)
               && q.it == p.it && q.log == p.log {
      EditSpares(hash, p.s, q.s, gone, k);
      EditUnnoticed(hash, p.s, q.s, gone - {k}, p.it, k);
    }
  }

  lemma {:induction false} EditMap<K(!new), V(!new)>(hash: K -> nat, s: State<K, V>, d: Edit<K, V>, gone: set<K>,
      m: map<K, V>)
      returns (m': map<K, V>)
    requires Inv(hash, s) && Represents(hash, s, m) && Enabled(hash, s, d, gone)
    ensures Inv(hash, Apply(hash, s, d, gone)) && Represents(hash, Apply(hash, s, d, gone), m')
  {
    m' := m;
    match d
    case Keep =>
    case Link(e) =>
      InsertInv(hash, s, e, m);
      m' := m[e.key := e.val];
    case Set(first, i, j, v) =>
      OverwriteInv(hash, s, first, i, j, v, m);
      m' := m[(if first then s.t0 else s.t1).buckets[i][j].key := v];
    case Drop(first, i, j) =>
      UnlinkInv(hash, s, first, i, j, m);
      m' := m - {(if first then s.t0 else s.t1).buckets[i][j].key};
    case Grow(exp) => StartInv(hash, s, exp, m);
  }

  lemma {:induction false} EditInv<K(!new), V(!new)>(hash: K -> nat, s: State<K, V>, s': State<K, V>, gone: set<K>)
    requires Inv(hash, s) && (exists m :: Represents(hash, s, m)) && EditStep(hash, s, s', gone)
    ensures Inv(hash, s') && exists m :: Represents(hash, s', m)
  {
    var d :| Enabled(hash, s, d, gone) && s' == Apply(hash, s, d, gone);
    var m :| Represents(hash, s, m);
    var m' := EditMap(hash, s, d, gone, m);
    assert Represents(hash, s', m');
  }

  /** Every point of an iteration is sound. */
  lemma {:induction false} SoundAt<K(!new), V(!new)>(hash: K -> nat, run: seq<Point<K, V>>, n: nat)
    requires Iteration(hash, run) && n < |run|
    ensures Sound(hash, run[n])
  {
    if n > 0 {
      SoundAt(hash, run, n - 1);
      assert Move(hash, run[n - 1], run[n - 1 + 1]);
      MoveSound(hash, run[n - 1], run[n]);
    }
  }

  lemma {:induction false} MoveSound<K(!new), V(!new)>(hash: K -> nat, p: Point<K, V>, q: Point<K, V>)
    requires Sound(hash, p) && Move(hash, p, q)
    ensures Sound(hash, q)
  {
    if gone :| EditStep(hash, p.s, q.s, gone) { EditInv(hash, p.s, q.s, gone); }
    MoveKeepsIter(hash, p, q);
  }

  lemma {:induction false} OnceThrough<K(!new), V(!new)>(hash: K -> nat, run: seq<Point<K, V>>, k: K, n: nat)
    requires Iteration(hash, run) && Throughout(hash, run, k) && n < |run|
    ensures Sound(hash, run[n]) && OnceSoFar(hash, run[n], k)
  {
    SoundAt(hash, run, n);
    if n == 0 {
      assert Get(hash, run[0].s, k).Some?;
    } else {
      OnceThrough(hash, run, k, n - 1);
      assert Move(hash, run[n - 1], run[n - 1 + 1]);
      MoveOnce(hash, run[n - 1], run[n], k);
    }
  }

  /** A safe iteration returns every key that is present from start to finish exactly once. */
  lemma {:induction false} IterationExact<K(!new), V(!new)>(hash: K -> nat, run: seq<Point<K, V>>, k: K)
    requires Iteration(hash, run) && Throughout(hash, run, k)
    ensures multiset(run[|run| - 1].log)[k] == 1
  {
    var last := run[|run| - 1];
    OnceThrough(hash, run, k, |run| - 1);
    StepLemma(hash, last.s, last.it);
  }

  // ---- The code ----

  /** `dictIterator` with `safe` set. */
  class SafeIterator<K(!new, ==), V(!new)> {
    const d: Dict<K, V>
    var it: Iter<K>

    constructor (d: Dict<K, V>)
      ensures this.d == d && it == FreshIter()
    {
      this.d := d;
      it := FreshIter();
    }

    /** `dictNext`: the first call pauses rehashing. */
    method Next() returns (r: Option<Entry<K, V>>)
      requires d.Valid() && IterOk(d.S(), it)
      modifies this`it, d`pauserehash
      ensures d.Valid() && (it, r) == Step(d.S(), old(it))
      ensures d.pauserehash == old(d.pauserehash) + if old(it.index) == -1 && old(it.table) == 0
        && !old(it.held) then 1 else 0
    {
      if !it.held && it.index == -1 && it.table == 0 {
        d.pauserehash := d.pauserehash + 1;
      }
      r := Advance();
    }

    /** The loop of `dictNext`. */
    method Advance() returns (r: Option<Entry<K, V>>)
      requires StateShape(d.S()) && IterOk(d.S(), it)
      modifies this`it
      ensures (it, r) == Step(d.S(), old(it))
    {
      ghost var s, it0 := d.S(), it;
      while true
        invariant IterOk(s, it) && d.S() == s && Step(s, it) == Step(s, it0)
        decreases 1 - it.table, |Live(s, it).buckets| - it.index, if it.held then 1 else 0
      {
        var t := if it.table == 0 then d.t0 else d.t1;
        if it.held {
          if it.next == None {
            it := it.(held := false);
            continue;
          }
          AfterHead(t.buckets[it.index], it.next.value);
          var rest := After(t.buckets[it.index], it.next.value);
          it := it.(next := FirstKey(rest[1..]));
          return Some(rest[0]);
        }
        if it.index + 1 < |t.buckets| {
          it := it.(index := it.index + 1);
        } else if d.rehashidx != -1 && it.table == 0 {
          it := it.(table := 1, index := 0);
          t := d.t1;
        } else {
          it := it.(index := it.index + 1);
          return None;
        }
        var c := t.buckets[it.index];
        if c != [] {
          it := it.(held := true, next := FirstKey(c[1..]));
          return Some(c[0]);
        }
      }
    }
  }
}
