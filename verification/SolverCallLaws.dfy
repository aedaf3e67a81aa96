/**
What pairing promises over whole streams: it inverts log printing, does not depend on how
slices overlap or in which order they arrive, and keys its rows.
*/
module SolverCallLaws {
  import opened Wrappers
  import opened Sorting
  import opened Text
  import opened SolverCalls

  // ----- Deduplication

  lemma KeysStep(evs: seq<Event>, e: Event)
    ensures Keys(evs + [e]) == Keys(evs) + {KeyOf(e)}
  {
  }

  lemma {:induction false} DedupedKeys(evs: seq<Event>)
    ensures Keys(Deduped(evs)) == Keys(evs)
    ensures forall e | e in Deduped(evs) :: e in evs
  {
    if evs != [] {
      var before, e := evs[..|evs| - 1], evs[|evs| - 1];
      assert evs == before + [e];
      DedupedKeys(before);
      DedupedStep(before, e);
      KeysStep(Deduped(before), e);
    }
  }

  lemma {:induction false} DedupedIsDistinct(evs: seq<Event>)
    ensures DistinctBy(KeyOf, Deduped(evs))
  {
    if evs != [] {
      var before, e := evs[..|evs| - 1], evs[|evs| - 1];
      assert evs == before + [e];
      DedupedIsDistinct(before);
      DedupedKeys(before);
      DedupedStep(before, e);
      var d := Deduped(before);
      forall i | 0 <= i < |d| ensures KeyOf(d[i]) in Keys(before) { assert d[i] in d; }
    }
  }

  lemma {:induction false} DedupedSorted(evs: seq<Event>)
    requires SortedBy(Precedes, evs)
    ensures SortedBy(Precedes, Deduped(evs))
  {
    if evs != [] {
      var before, e := evs[..|evs| - 1], evs[|evs| - 1];
      assert evs == before + [e];
      SortedSnoc(Precedes, before, e);
      DedupedSorted(before);
      DedupedKeys(before);
      DedupedStep(before, e);
      SortedSnoc(Precedes, Deduped(before), e);
    }
  }

  lemma {:induction false} DedupedDistinct(evs: seq<Event>)
    requires DistinctBy(KeyOf, evs)
    ensures Deduped(evs) == evs
  {
    if evs != [] {
      var before, e := evs[..|evs| - 1], evs[|evs| - 1];
      assert evs == before + [e];
      LastDistinct(KeyOf, before, e);
      DedupedDistinct(before);
      DedupedStep(before, e);
    }
  }

  // ----- Pairing inverts printing

  /** Attempts 1 to k, then at most one diagnostics line. */
  ghost predicate Printed(s: Solve) {
    && s.fetches != []
    && (forall k | 0 <= k < |s.fetches| :: s.fetches[k].line.Fetch? && s.fetches[k].line.attempt == Some(k + 1))
    && (s.diag.Some? ==> s.diag.value.line.Diagnostics?)
  }

  /** Timestamps do not decrease inside a call and increase strictly from one call to the next. */
  ghost predicate Chronological(ss: seq<Solve>) {
    && (forall i | 0 <= i < |ss| :: forall a, b | 0 <= a < b < |SolveLines(ss[i])| ::
          SolveLines(ss[i])[a].ts <= SolveLines(ss[i])[b].ts)
    && (forall i, j | 0 <= i < j < |ss| :: forall a, b | a in SolveLines(ss[i]) && b in SolveLines(ss[j]) ::
          a.ts < b.ts)
  }

  lemma {:induction false} LinesElements(ss: seq<Solve>, e: Event)
    ensures e in Lines(ss) <==> exists i :: 0 <= i < |ss| && e in SolveLines(ss[i])
  {
    if ss != [] {
      var m := |ss| - 1;
      var before, last := ss[..m], ss[m];
      LinesElements(before, e);
      assert Lines(ss) == Lines(before) + SolveLines(last);
      if e in Lines(before) {
        var i :| 0 <= i < m && e in SolveLines(before[i]);
        assert e in SolveLines(ss[i]);
      }
      if i :| 0 <= i < |ss| && e in SolveLines(ss[i]) {
        if i < m {
          assert e in SolveLines(before[i]);
        }
      }
    }
  }

  lemma SolveLinesSorted(ss: seq<Solve>, i: nat)
    requires i < |ss| && Chronological(ss) && Printed(ss[i])
    ensures SortedBy(Precedes, SolveLines(ss[i]))
  {
  }

  lemma {:induction false} LinesSorted(ss: seq<Solve>)
    requires Chronological(ss) && forall i | 0 <= i < |ss| :: Printed(ss[i])
    ensures SortedBy(Precedes, Lines(ss))
  {
    if ss != [] {
      var m := |ss| - 1;
      var before, last := ss[..m], ss[m];
      LinesSorted(before);
      SolveLinesSorted(ss, m);
      forall a, b | a in Lines(before) && b in SolveLines(last) ensures Precedes(a, b) {
        LinesElements(before, a);
        var i :| 0 <= i < m && a in SolveLines(before[i]);
        assert a in SolveLines(ss[i]) && b in SolveLines(ss[m]);
      }
      SortedAppend(Precedes, Lines(before), SolveLines(last));
    }
  }

  lemma PrintedShaped(ss: seq<Solve>)
    requires forall i | 0 <= i < |ss| :: Printed(ss[i])
    ensures Shaped(ss)
  {
  }

  /**
  For any list of printed calls of a request, interleaved in any way with lines of other requests,
  delivered once each: pairing recovers exactly that list of calls.
  */
  lemma PairingInvertsPrinting(events: seq<Event>, rid: Option<string>, ss: seq<Solve>)
    requires DistinctBy(KeyOf, events) && Filter(HasRequest(rid), events) == Lines(ss)
    requires Chronological(ss) && forall i | 0 <= i < |ss| :: Printed(ss[i])
    ensures Split(Group(events, rid)) == ss
  {
    PrecedesPreorder();
    SortDistinct(Precedes, KeyOf, events);
    DedupedDistinct(Sort(Precedes, events));
    FilterSort(HasRequest(rid), Precedes, events);
    LinesSorted(ss);
    SortOfSorted(Precedes, Lines(ss));
    PrintedShaped(ss);
    SplitOfLines(ss);
  }

  // ----- Pairing does not depend on order or redelivery

  /** One id, one line. */
  ghost predicate KeysIdentify(events: seq<Event>) {
    forall a, b | a in events && b in events && KeyOf(a) == KeyOf(b) :: a == b
  }

  /** No two distinct lines of a request tie on timestamp and kind. */
  ghost predicate NoTies(events: seq<Event>) {
    forall a, b | a in events && b in events && a.requestId == b.requestId && a != b ::
      !(a.ts == b.ts && Rank(a) == Rank(b))
  }

  ghost predicate SameEvents(xs: seq<Event>, ys: seq<Event>) {
    forall e :: e in xs <==> e in ys
  }

  ghost predicate StrictlyOrdered(evs: seq<Event>) {
    forall i, j | 0 <= i < j < |evs| :: !Precedes(evs[j], evs[i])
  }

  lemma FirstIsElement(evs: seq<Event>)
    ensures evs == [] || evs[0] in evs
  {
  }

  lemma {:induction false} StrictOrderUnique(xs: seq<Event>, ys: seq<Event>)
    requires StrictlyOrdered(xs) && StrictlyOrdered(ys) && SameEvents(xs, ys)
    ensures xs == ys
  {
    if xs == [] {
      FirstIsElement(ys);
    } else {
      assert xs[0] in xs;
      var j :| 0 <= j < |ys| && ys[j] == xs[0];
      assert ys[0] in ys;
      var i :| 0 <= i < |xs| && xs[i] == ys[0];
      assert xs[0] == ys[0];
      forall e ensures e in xs[1..] <==> e in ys[1..] {
        if e in xs[1..] {
          var k :| 1 <= k < |xs| && xs[k] == e;
          assert e in ys && e != ys[0];
        }
        if e in ys[1..] {
          var k :| 1 <= k < |ys| && ys[k] == e;
          assert e in xs && e != xs[0];
        }
      }
      StrictOrderUnique(xs[1..], ys[1..]);
      assert xs == [xs[0]] + xs[1..] && ys == [ys[0]] + ys[1..];
    }
  }

  lemma RecordedElements(events: seq<Event>)
    requires KeysIdentify(events)
    ensures forall e :: e in Recorded(events) <==> e in events
  {
    var sorted := Sort(Precedes, events);
    SortElements(Precedes, events);
    DedupedKeys(sorted);
    assert Recorded(events) == Deduped(sorted);
    forall e | e in events ensures e in Recorded(events) {
      assert KeyOf(e) in Keys(sorted);
      var x :| x in Recorded(events) && KeyOf(x) == KeyOf(e);
      assert x in sorted;
    }
  }

  lemma {:induction false} FilterKeepsOrder(p: Event -> bool, evs: seq<Event>)
    requires SortedBy(Precedes, evs) && DistinctBy(KeyOf, evs)
    ensures SortedBy(Precedes, Filter(p, evs)) && DistinctBy(KeyOf, Filter(p, evs))
  {
    if evs != [] {
      FilterKeepsOrder(p, evs[1..]);
      FilterElements(p, evs[1..]);
      var rest := Filter(p, evs[1..]);
      forall i | 0 <= i < |rest| ensures Precedes(evs[0], rest[i]) && KeyOf(evs[0]) != KeyOf(rest[i]) {
        assert rest[i] in evs[1..];
        var j :| 1 <= j < |evs| && evs[j] == rest[i];
      }
    }
  }

  lemma GroupStrict(events: seq<Event>, rid: Option<string>)
    requires KeysIdentify(events) && NoTies(events)
    ensures StrictlyOrdered(Group(events, rid))
    ensures forall e :: e in Group(events, rid) <==> e in events && e.requestId == rid
  {
    PrecedesPreorder();
    SortSorts(Precedes, events);
    DedupedIsDistinct(Sort(Precedes, events));
    DedupedSorted(Sort(Precedes, events));
    FilterKeepsOrder(HasRequest(rid), Recorded(events));
    RecordedElements(events);
    FilterElements(HasRequest(rid), Recorded(events));
    var g := Group(events, rid);
    forall i, j | 0 <= i < j < |g| ensures !Precedes(g[j], g[i]) {
      assert g[i] in g && g[j] in g;
      assert KeyOf(g[i]) != KeyOf(g[j]);
      assert Precedes(g[i], g[j]);
    }
  }

  /** However slices overlap and in whatever order they arrive, every request's calls are the same. */
  lemma GroupsAgree(xs: seq<Event>, ys: seq<Event>, rid: Option<string>)
    requires SameEvents(xs, ys) && KeysIdentify(xs) && NoTies(xs)
    ensures Group(xs, rid) == Group(ys, rid)
  {
    GroupStrict(xs, rid);
    GroupStrict(ys, rid);
    StrictOrderUnique(Group(xs, rid), Group(ys, rid));
  }

  lemma {:induction false} RequestsElements(evs: seq<Event>)
    ensures forall rid :: rid in Requests(evs) <==> exists e :: e in evs && e.requestId == rid
    ensures forall i, j | 0 <= i < j < |Requests(evs)| :: Requests(evs)[i] != Requests(evs)[j]
  {
    if evs != [] {
      var before, e := evs[..|evs| - 1], evs[|evs| - 1];
      RequestsElements(before);
      assert evs == before + [e];
      forall rid ensures rid in Requests(evs) <==> exists e :: e in evs && e.requestId == rid {
        if rid in Requests(evs) {
          if rid == e.requestId {
            assert e in evs;
          } else {
            var x :| x in before && x.requestId == rid;
            assert x in evs;
          }
        }
        if x :| x in evs && x.requestId == rid {
          if x != e {
            assert x in before;
          }
        }
      }
    }
  }

  lemma {:induction false} DistinctMultiplicity<K(!new)>(xs: seq<K>, k: K)
    requires forall i, j | 0 <= i < j < |xs| :: xs[i] != xs[j]
    ensures multiset(xs)[k] == if k in xs then 1 else 0
  {
    if xs != [] {
      DistinctMultiplicity(xs[1..], k);
      assert xs == [xs[0]] + xs[1..];
      assert multiset(xs) == multiset{xs[0]} + multiset(xs[1..]);
    }
  }

  lemma DistinctSameElements<K(!new)>(xs: seq<K>, ys: seq<K>)
    requires forall i, j | 0 <= i < j < |xs| :: xs[i] != xs[j]
    requires forall i, j | 0 <= i < j < |ys| :: ys[i] != ys[j]
    requires forall k :: k in xs <==> k in ys
    ensures multiset(xs) == multiset(ys)
  {
    forall k ensures multiset(xs)[k] == multiset(ys)[k] {
      DistinctMultiplicity(xs, k);
      DistinctMultiplicity(ys, k);
    }
  }

  lemma {:induction false} ConcatAppend<K, R>(f: K -> seq<R>, a: seq<K>, b: seq<K>)
    ensures Concat(f, a + b) == Concat(f, a) + Concat(f, b)
  {
    if b == [] {
      assert a + b == a;
    } else {
      var m := |b| - 1;
      ConcatAppend(f, a, b[..m]);
      assert (a + b)[..|a + b| - 1] == a + b[..m];
    }
  }

  lemma TakeOut<K>(ys: seq<K>, x: K) returns (a: seq<K>, b: seq<K>)
    requires x in multiset(ys)
    ensures ys == a + [x] + b && multiset(a + b) == multiset(ys) - multiset{x}
  {
    var j :| 0 <= j < |ys| && ys[j] == x;
    a, b := ys[..j], ys[j + 1..];
    MultisetMiddle(a, [x], b);
    assert ys == a + [x] + b;
  }

  lemma ConcatSnoc<K, R>(f: K -> seq<R>, a: seq<K>, x: K)
    ensures Concat(f, a + [x]) == Concat(f, a) + f(x)
  {
    assert (a + [x])[..|a|] == a;
  }

  lemma MultisetMiddle<R>(p: seq<R>, q: seq<R>, r: seq<R>)
    ensures multiset(p + q + r) == multiset(p + r) + multiset(q)
  {
  }

  lemma ConcatMiddle<K, R>(f: K -> seq<R>, a: seq<K>, x: K, b: seq<K>)
    ensures multiset(Concat(f, a + [x] + b)) == multiset(Concat(f, a + b)) + multiset(f(x))
  {
    ConcatAppend(f, a, b);
    ConcatAppend(f, a + [x], b);
    ConcatSnoc(f, a, x);
    MultisetMiddle(Concat(f, a), f(x), Concat(f, b));
  }

  lemma {:induction false} ConcatPermuted<K, R>(f: K -> seq<R>, xs: seq<K>, ys: seq<K>)
    requires multiset(xs) == multiset(ys)
    ensures multiset(Concat(f, xs)) == multiset(Concat(f, ys))
  {
    if xs == [] {
      assert |multiset(ys)| == 0;
      assert ys == [];
    } else {
      var m := |xs| - 1;
      var before, x := xs[..m], xs[m];
      assert xs == before + [x];
      var a, b := TakeOut(ys, x);
      ConcatPermuted(f, before, a + b);
      ConcatMiddle(f, a, x, b);
      ConcatSnoc(f, before, x);
    }
  }

  lemma {:induction false} ConcatCongruent<K, R>(f: K -> seq<R>, g: K -> seq<R>, ks: seq<K>)
    requires forall i | 0 <= i < |ks| :: f(ks[i]) == g(ks[i])
    ensures Concat(f, ks) == Concat(g, ks)
  {
    if ks != [] {
      ConcatCongruent(f, g, ks[..|ks| - 1]);
    }
  }

  lemma RequestsAgree(xs: seq<Event>, ys: seq<Event>)
    requires SameEvents(xs, ys)
    ensures multiset(Requests(xs)) == multiset(Requests(ys))
  {
    RequestsElements(xs);
    RequestsElements(ys);
    forall rid ensures rid in Requests(xs) <==> rid in Requests(ys) {
      if e :| e in xs && e.requestId == rid { assert e in ys; }
      if e :| e in ys && e.requestId == rid { assert e in xs; }
    }
    DistinctSameElements(Requests(xs), Requests(ys));
  }

  lemma RowsAgree(f: Option<string> -> seq<Row>, g: Option<string> -> seq<Row>,
                  a: seq<Option<string>>, b: seq<Option<string>>)
    requires multiset(a) == multiset(b) && forall rid :: f(rid) == g(rid)
    ensures multiset(Sort(AtLe, Concat(f, a))) == multiset(Sort(AtLe, Concat(g, b)))
  {
    ConcatPermuted(f, a, b);
    ConcatCongruent(f, g, b);
    SortPermutes(AtLe, Concat(f, a));
    SortPermutes(AtLe, Concat(g, b));
  }

  /**
  Any permutation or redelivery of the events gives the same rows, as a multiset, when identical ids
  mean identical lines and no two distinct lines of a request tie.
  */
  lemma PairingIgnoresDelivery(xs: seq<Event>, ys: seq<Event>, env: string, iso: nat -> string)
    requires SameEvents(xs, ys) && KeysIdentify(xs) && NoTies(xs)
    ensures multiset(Paired(xs, env, iso)) == multiset(Paired(ys, env, iso))
  {
    var fx, fy := RequestRows(Recorded(xs), env, iso), RequestRows(Recorded(ys), env, iso);
    RecordedElements(xs);
    RecordedElements(ys);
    RequestsAgree(Recorded(xs), Recorded(ys));
    forall rid ensures fx(rid) == fy(rid) { GroupsAgree(xs, ys, rid); }
    RowsAgree(fx, fy, Requests(Recorded(xs)), Requests(Recorded(ys)));
  }

  // ----- Row keys

  lemma LastHash(shown: string, digits: string, s: string)
    requires s == shown + "#" + digits && forall c | c in digits :: '0' <= c <= '9'
    ensures s[|shown|] == '#' && forall k | |shown| < k < |s| :: s[k] != '#'
  {
    forall k | |shown| < k < |s| ensures s[k] != '#' {
      assert s[k] == digits[k - |shown| - 1];
      assert s[k] in digits;
    }
  }

  lemma CallIdSplits(a: Option<string>, m: nat, b: Option<string>, n: nat)
    requires CallId(a, m) == CallId(b, n)
    ensures Shown(a) == Shown(b) && m == n
  {
    var s := CallId(a, m);
    var i, j := |Shown(a)|, |Shown(b)|;
    LastHash(Shown(a), Decimal(m), s);
    LastHash(Shown(b), Decimal(n), s);
    assert i == j;
    assert s[i + 1..] == Decimal(m) && s[j + 1..] == Decimal(n);
    assert s[..i] == Shown(a) && s[..j] == Shown(b);
    DecimalInjective(m, n);
  }

  function CallIdOf(r: Row): string {
    r.callId
  }

  /** A row of `rid`, as the request's `n`-th call. */
  ghost predicate RowOf(r: Row, rid: Option<string>, n: nat) {
    r.requestId == rid && r.callId == CallId(rid, n)
  }

  ghost predicate Numbered(f: Option<string> -> seq<Row>) {
    forall rid :: forall i | 0 <= i < |f(rid)| :: RowOf(f(rid)[i], rid, i + 1)
  }

  lemma RequestRowsNumbered(recorded: seq<Event>, env: string, iso: nat -> string)
    ensures Numbered(RequestRows(recorded, env, iso))
  {
    var f := RequestRows(recorded, env, iso);
    forall rid ensures forall i | 0 <= i < |f(rid)| :: RowOf(f(rid)[i], rid, i + 1) {
      var calls := Split(Filter(HasRequest(rid), recorded));
      NumberedRows(env, iso, rid, calls);
    }
  }

  lemma NumberedRows(env: string, iso: nat -> string, rid: Option<string>, calls: seq<Solve>)
    ensures Opened(calls) ==>
              forall i | 0 <= i < |calls| :: RowOf(RowsOf(env, iso, rid, calls)[i], rid, i + 1)
  {
  }

  /** There is a fetch line of this request. */
  ghost predicate Fetched(evs: seq<Event>, rid: Option<string>) {
    exists e :: e in evs && e.line.Fetch? && e.requestId == rid
  }

  /** There are fetch lines without a request id, and fetch lines of a request whose id is the text "None". */
  ghost predicate NoneClash(evs: seq<Event>) {
    Fetched(evs, None) && Fetched(evs, Some("None"))
  }

  /** Lines make calls exactly if there is a fetch line among them. */
  lemma {:induction false} SplitEmptyIff(evs: seq<Event>)
    ensures Split(evs) == [] <==> forall e | e in evs :: !e.line.Fetch?
  {
    if evs != [] {
      var before, e := evs[..|evs| - 1], evs[|evs| - 1];
      assert evs == before + [e];
      SplitEmptyIff(before);
      SplitMore(before, e);
      assert e in evs;
    }
  }

  lemma RowsIffFetched(recorded: seq<Event>, env: string, iso: nat -> string, rid: Option<string>)
    ensures RequestRows(recorded, env, iso)(rid) != [] <==> Fetched(recorded, rid)
    ensures Fetched(recorded, rid) ==> rid in Requests(recorded)
  {
    var own := Filter(HasRequest(rid), recorded);
    SplitEmptyIff(own);
    SplitOpens(own);
    FilterElements(HasRequest(rid), recorded);
    RequestsElements(recorded);
    if e :| e in own && e.line.Fetch? {
      assert e in recorded && e.requestId == rid;
    }
    if e :| e in recorded && e.line.Fetch? && e.requestId == rid {
      assert e in own;
    }
  }

  lemma {:induction false} ConcatRows(f: Option<string> -> seq<Row>, rids: seq<Option<string>>)
    requires Numbered(f)
    ensures forall r | r in Concat(f, rids) :: r.requestId in rids && r in f(r.requestId)
    ensures forall rid, r | rid in rids && r in f(rid) :: r in Concat(f, rids)
  {
    if rids != [] {
      var m := |rids| - 1;
      ConcatRows(f, rids[..m]);
      assert rids == rids[..m] + [rids[m]];
      forall r | r in f(rids[m]) ensures r.requestId == rids[m] {
        var i :| 0 <= i < |f(rids[m])| && f(rids[m])[i] == r;
        assert RowOf(r, rids[m], i + 1);
      }
    }
  }

  /** Rows of different requests share a call id only if the ids print alike. */
  lemma RowsClash(f: Option<string> -> seq<Row>, a: Option<string>, r: Row, b: Option<string>, s: Row)
    requires Numbered(f) && r in f(a) && s in f(b) && r.callId == s.callId
    ensures Shown(a) == Shown(b)
  {
    var i :| 0 <= i < |f(a)| && f(a)[i] == r;
    var j :| 0 <= j < |f(b)| && f(b)[j] == s;
    assert RowOf(r, a, i + 1) && RowOf(s, b, j + 1);
    CallIdSplits(a, i + 1, b, j + 1);
  }

  lemma OwnRowsDistinct(f: Option<string> -> seq<Row>, rid: Option<string>)
    requires Numbered(f)
    ensures DistinctBy(CallIdOf, f(rid))
  {
    forall i, j | 0 <= i < j < |f(rid)| ensures f(rid)[i].callId != f(rid)[j].callId {
      assert RowOf(f(rid)[i], rid, i + 1) && RowOf(f(rid)[j], rid, j + 1);
      if CallId(rid, i + 1) == CallId(rid, j + 1) {
        CallIdSplits(rid, i + 1, rid, j + 1);
      }
    }
  }

  lemma {:induction false} ConcatDistinct(f: Option<string> -> seq<Row>, rids: seq<Option<string>>)
    requires Numbered(f) && (f(None) == [] || f(Some("None")) == [])
    requires forall i, j | 0 <= i < j < |rids| :: rids[i] != rids[j]
    ensures DistinctBy(CallIdOf, Concat(f, rids))
  {
    if rids != [] {
      var m := |rids| - 1;
      var before, rid := rids[..m], rids[m];
      assert rids == before + [rid];
      ConcatDistinct(f, before);
      ConcatRows(f, before);
      OwnRowsDistinct(f, rid);
      var c := Concat(f, before);
      forall i, j | 0 <= i < |c| && 0 <= j < |f(rid)| ensures c[i].callId != f(rid)[j].callId {
        assert c[i] in c && f(rid)[j] in f(rid);
        var k :| 0 <= k < m && before[k] == c[i].requestId;
        assert rids[k] != rids[m];
        if c[i].callId == f(rid)[j].callId {
          RowsClash(f, before[k], c[i], rid, f(rid)[j]);
          assert false;
        }
      }
    }
  }

  lemma NoneClashes(f: Option<string> -> seq<Row>, rids: seq<Option<string>>)
    requires Numbered(f) && f(None) != [] && f(Some("None")) != []
    requires None in rids && Some("None") in rids
    ensures !DistinctBy(CallIdOf, Concat(f, rids))
  {
    var r, s := f(None)[0], f(Some("None"))[0];
    assert RowOf(r, None, 1) && RowOf(s, Some("None"), 1);
    ConcatRows(f, rids);
    var rows := Concat(f, rids);
    assert None in rids && r in f(None) && Some("None") in rids && s in f(Some("None"));
    assert r in rows && s in rows;
    var i :| 0 <= i < |rows| && rows[i] == r;
    var j :| 0 <= j < |rows| && rows[j] == s;
    assert CallIdOf(rows[i]) == CallIdOf(rows[j]) && i != j;
    assert i < j || j < i;
  }

  /**
  Call ids are distinct exactly if no fetch line without a request id meets one of a request named
  "None", among the recorded lines; if ids identify lines, among the events as they were delivered.
  */
  lemma CallIdsDistinctIff(events: seq<Event>, env: string, iso: nat -> string)
    ensures DistinctBy(CallIdOf, Paired(events, env, iso)) <==> !NoneClash(Recorded(events))
    ensures KeysIdentify(events) ==> (NoneClash(Recorded(events)) <==> NoneClash(events))
  {
    var recorded := Recorded(events);
    var f, rids := RequestRows(recorded, env, iso), Requests(recorded);
    RequestRowsNumbered(recorded, env, iso);
    RequestsElements(recorded);
    SortDistinct(AtLe, CallIdOf, Concat(f, rids));
    RowsIffFetched(recorded, env, iso, None);
    RowsIffFetched(recorded, env, iso, Some("None"));
    if NoneClash(recorded) {
      NoneClashes(f, rids);
    } else {
      ConcatDistinct(f, rids);
    }
    if KeysIdentify(events) {
      SameRecorded(events);
    }
  }

  lemma SameRecorded(events: seq<Event>)
    requires KeysIdentify(events)
    ensures NoneClash(Recorded(events)) <==> NoneClash(events)
  {
    RecordedElements(events);
    forall rid ensures Fetched(Recorded(events), rid) <==> Fetched(events, rid) {
      if e :| e in events && e.line.Fetch? && e.requestId == rid {
        assert e in Recorded(events);
      }
      if e :| e in Recorded(events) && e.line.Fetch? && e.requestId == rid {
        assert e in events;
      }
    }
  }

  lemma BothFetched(x: Event, y: Event)
    requires x.line.Fetch? && y.line.Fetch? && KeyOf(x) != KeyOf(y)
    requires x.requestId == None && y.requestId == Some("None")
    ensures KeysIdentify([x, y]) && NoneClash([x, y])
  {
    var evs := [x, y];
    assert x in evs && y in evs;
    assert Fetched(evs, None) && Fetched(evs, Some("None"));
  }

  /** Two fetch lines, one without a request id and one of the request "None": both rows are None#1. */
  lemma CallIdsClashExample(env: string, iso: nat -> string)
    ensures var fetch := Fetch(Some(1), None, None, None);
      var events := [Event(Some("a"), 0, "", None, "", fetch), Event(Some("b"), 1, "", Some("None"), "", fetch)];
      !DistinctBy(CallIdOf, Paired(events, env, iso))
  {
    var fetch := Fetch(Some(1), None, None, None);
    var x, y := Event(Some("a"), 0, "", None, "", fetch), Event(Some("b"), 1, "", Some("None"), "", fetch);
    assert KeyOf(x)[0] != KeyOf(y)[0];
    BothFetched(x, y);
    CallIdsDistinctIff([x, y], env, iso);
  }
}
