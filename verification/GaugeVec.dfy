/** Gauges per label set with bounded cardinality, adapters/otel/metric_provider.go. Values are
    real numbers; what is exported to the instrument is not part of the model. */
module GaugeVec {
  import opened Collections
  import L = Labels

  datatype Op = Set(v: real) | Inc | Dec | Add(delta: real)

  function Apply(last: real, op: Op): real {
    match op
    case Set(v) => v
    case Inc => last + 1.0
    case Dec => last - 1.0
    case Add(delta) => last + delta
  }

  /** An operation somebody performed on the gauge of the label set with this key. */
  datatype Entry = Entry(key: string, op: Op)

  /** The unbounded map: the last value of a key is the fold of its own operations. */
  function LastValue(log: seq<Entry>, key: string): real {
    if log == [] then 0.0
    else
      var before := LastValue(log[..|log| - 1], key);
      if log[|log| - 1].key == key then Apply(before, log[|log| - 1].op) else before
  }

  /** One slot for everything that is not admitted. */
  function OverflowValue(log: seq<Entry>, admitted: set<string>): real {
    if log == [] then 0.0
    else
      var before := OverflowValue(log[..|log| - 1], admitted);
      if log[|log| - 1].key !in admitted then Apply(before, log[|log| - 1].op) else before
  }

  lemma LastValueAppend(log: seq<Entry>, e: Entry, key: string)
    ensures LastValue(log + [e], key) == if e.key == key then Apply(LastValue(log, key), e.op) else LastValue(log, key)
  {
    assert (log + [e])[..|log|] == log;
  }

  lemma OverflowAppend(log: seq<Entry>, e: Entry, admitted: set<string>)
    ensures OverflowValue(log + [e], admitted)
         == if e.key !in admitted then Apply(OverflowValue(log, admitted), e.op) else OverflowValue(log, admitted)
  {
    assert (log + [e])[..|log|] == log;
  }

  /** A key without operations: no value yet, and admitting it changes nothing for the others. */
  lemma {:induction false} FreshKey(log: seq<Entry>, admitted: set<string>, key: string)
    requires forall i | 0 <= i < |log| :: log[i].key != key
    ensures LastValue(log, key) == 0.0 && OverflowValue(log, admitted + {key}) == OverflowValue(log, admitted)
    decreases |log|
  {
    if log != [] {
      FreshKey(log[..|log| - 1], admitted, key);
    }
  }

  /** The first keys to be looked up, up to the cap, are the ones the cache holds. */
  function Admitted(seen: seq<string>, maxSize: nat): set<string> {
    set i | 0 <= i < |seen| && i < maxSize :: seen[i]
  }

  lemma {:induction false} AdmittedSize(seen: seq<string>, maxSize: nat)
    requires NoRepeats(seen)
    ensures |Admitted(seen, maxSize)| == if |seen| < maxSize then |seen| else maxSize
    decreases |seen|
  {
    if seen == [] {
      assert Admitted(seen, maxSize) == {};
    } else {
      var init, last := seen[..|seen| - 1], seen[|seen| - 1];
      assert seen == init + [last] && last !in Admitted(init, maxSize);
      AdmittedSize(init, maxSize);
      AdmittedGrows(init, maxSize, last);
    }
  }

  lemma AllAreAdmitted(seen: seq<string>, maxSize: nat, key: string)
    requires |seen| < maxSize && key !in Admitted(seen, maxSize)
    ensures key !in seen
  {
    assert forall i | 0 <= i < |seen| :: seen[i] in Admitted(seen, maxSize);
  }

  lemma AdmittedGrows(seen: seq<string>, maxSize: nat, key: string)
    ensures Admitted(seen + [key], maxSize) == if |seen| < maxSize then Admitted(seen, maxSize) + {key} else Admitted(seen, maxSize)
  {
    var more := seen + [key];
    assert forall i | 0 <= i < |seen| :: more[i] == seen[i];
    assert |seen| < maxSize ==> more[|seen|] in Admitted(more, maxSize);
  }

  /** What a lookup gives: the attributes of the label set, or the overflow sentinel. */
  datatype Attrs = Attributes(pairs: seq<(string, string)>) | OverflowSentinel

  function AttrsOf(order: seq<string>, l: L.Labels): Attrs
    requires forall i | 0 <= i < |order| :: order[i] in l
  {
    Attributes(seq(|order|, i requires 0 <= i < |order| => (order[i], l[order[i]])))
  }

  ghost predicate NoSentinel(cache: map<string, Attrs>) {
    forall key | key in cache :: cache[key].Attributes?
  }

  ghost predicate NoRepeats(seen: seq<string>) {
    forall i, j | 0 <= i < j < |seen| :: seen[i] != seen[j]
  }

  ghost predicate ServedIn(key: string, seen: seq<string>, cached: set<string>, owners: set<string>, shared: bool) {
    key in seen && if key in cached then key in owners else shared
  }

  /** The cache holds the first keys; only they have gauges of their own, and whatever was
      operated on has a gauge. */
  ghost predicate ShapeOf(seen: seq<string>, maxSize: nat, cached: set<string>, owners: set<string>, shared: bool, log: seq<Entry>) {
    && NoRepeats(seen)
    && cached == Admitted(seen, maxSize)
    && owners <= cached
    && AllServed(seen, cached, owners, shared, log)
  }

  ghost predicate AllServed(seen: seq<string>, cached: set<string>, owners: set<string>, shared: bool, log: seq<Entry>) {
    forall i | 0 <= i < |log| :: ServedIn(log[i].key, seen, cached, owners, shared)
  }

  lemma AdmitShape(seen: seq<string>, maxSize: nat, cached: set<string>, owners: set<string>, shared: bool, log: seq<Entry>, key: string,
                   cached': set<string>)
    requires ShapeOf(seen, maxSize, cached, owners, shared, log) && key !in seen && |seen| < maxSize
    requires cached' == cached + {key}
    ensures ShapeOf(seen + [key], maxSize, cached', owners, shared, log)
    ensures OverflowValue(log, cached') == OverflowValue(log, cached)
  {
    AdmittedGrows(seen, maxSize, key);
    forall i | 0 <= i < |log| ensures log[i].key != key && ServedIn(log[i].key, seen + [key], cached + {key}, owners, shared) {
      assert ServedIn(log[i].key, seen, cached, owners, shared);
    }
    FreshKey(log, cached, key);
  }

  lemma RefuseShape(seen: seq<string>, maxSize: nat, cached: set<string>, owners: set<string>, shared: bool, log: seq<Entry>, key: string)
    requires ShapeOf(seen, maxSize, cached, owners, shared, log) && key !in seen && |seen| >= maxSize
    ensures ShapeOf(seen + [key], maxSize, cached, owners, shared, log)
  {
    AdmittedGrows(seen, maxSize, key);
    forall i | 0 <= i < |log| ensures ServedIn(log[i].key, seen + [key], cached, owners, shared) {
      assert ServedIn(log[i].key, seen, cached, owners, shared);
    }
  }

  lemma GaugeShape(seen: seq<string>, maxSize: nat, cached: set<string>, owners: set<string>, shared: bool, log: seq<Entry>,
                   more: set<string>, shared': bool)
    requires ShapeOf(seen, maxSize, cached, owners, shared, log) && owners <= more <= cached && (shared ==> shared')
    ensures ShapeOf(seen, maxSize, cached, more, shared', log)
  {
    forall i | 0 <= i < |log| ensures ServedIn(log[i].key, seen, cached, more, shared') {
      assert ServedIn(log[i].key, seen, cached, owners, shared);
    }
  }

  /** Set gives the value, Inc and Dec go one up or down, Add by its argument. */
  ghost predicate Moves(op: Op, from: real, to: real) {
    && (op.Set? ==> to == op.v)
    && (op.Inc? ==> to - from == 1.0)
    && (op.Dec? ==> from - to == 1.0)
    && (op.Add? ==> to - from == op.delta)
  }

  class Gauge {
    const attrs: Attrs
    var last: real

    constructor (attrs: Attrs)
      ensures this.attrs == attrs && last == 0.0
    {
      this.attrs := attrs;
      last := 0.0;
    }

    method Perform(op: Op)
      modifies this
      ensures last == Apply(old(last), op) && Moves(op, old(last), last)
    {
      match op
      case Set(v) => last := v;
      case Inc => last := last + 1.0;
      case Dec => last := last - 1.0;
      case Add(delta) => last := last + delta;
    }
  }

  /** All there is of a vector but the values of its gauges. */
  datatype Shot = Shot(seen: seq<string>, cache: map<string, Attrs>, gauges: map<string, Gauge>, shared: Gauge?, log: seq<Entry>)

  ghost predicate More(gauges: map<string, Gauge>, more: map<string, Gauge>) {
    forall k | k in gauges :: k in more && more[k] == gauges[k]
  }

  /** What no caller changes for the others: how a key was decided and which gauge it was given. */
  ghost predicate After(s: Shot, t: Shot) {
    && s.seen <= t.seen && s.log <= t.log
    && (forall k | k in s.seen :: (k in t.cache <==> k in s.cache) && (k in s.cache ==> k in t.cache && t.cache[k] == s.cache[k]))
    && More(s.gauges, t.gauges)
    && (s.shared != null ==> t.shared == s.shared)
  }

  lemma AdmittedAfter(s: Shot, key: string, attrs: Attrs)
    requires key !in s.seen
    ensures After(s, s.(seen := s.seen + [key], cache := s.cache[key := attrs]))
  {
  }

  lemma BoundAfter(s: Shot, gauges: map<string, Gauge>, shared: Gauge?)
    requires More(s.gauges, gauges) && (s.shared != null ==> shared == s.shared)
    ensures After(s, s.(gauges := gauges, shared := shared))
  {
  }

  lemma AfterTrans(s: Shot, t: Shot, u: Shot)
    requires After(s, t) && After(t, u)
    ensures After(s, u)
  {
  }

  /** A caller that stops after its lookup, after it has its gauge, or after an operation. */
  datatype Call = Looks(l: L.Labels) | Binds(l: L.Labels) | Operates(l: L.Labels, op: Op)

  class Vec {
    const labels: seq<string>
    const maxSize: nat
    var cache: map<string, Attrs>
    var gauges: map<string, Gauge>
    var overflowGauge: Gauge?
    ghost var seen: seq<string>   // keys in the order of their first lookup
    ghost var log: seq<Entry>     // operations in the order they took effect

    ghost predicate Shape()
      reads this
    {
      && ShapeOf(seen, maxSize, cache.Keys, gauges.Keys, overflowGauge != null, log)
      && NoSentinel(cache)
    }

    /** The key was looked up and has the gauge that is meant for it. */
    ghost predicate Served(key: string)
      reads this
    {
      ServedIn(key, seen, cache.Keys, gauges.Keys, overflowGauge != null)
    }

    ghost predicate Objects()
      reads `cache, `gauges, `overflowGauge, gauges.Values, overflowGauge
    {
      && (forall j, k | j in gauges && k in gauges && j != k :: gauges[j] != gauges[k])
      && (forall key | key in gauges :: gauges[key] != overflowGauge && key in cache && gauges[key].attrs == cache[key])
      && (overflowGauge != null ==> overflowGauge.attrs == OverflowSentinel)
    }

    /** The bounded form agrees with the unbounded one for the first keys, and with one shared
        slot for all others. */
    ghost predicate Values()
      reads `cache, `gauges, `overflowGauge, `log, gauges.Values, overflowGauge
    {
      && (forall key | key in gauges :: gauges[key].last == LastValue(log, key))
      && (overflowGauge != null ==> overflowGauge.last == OverflowValue(log, cache.Keys))
    }

    ghost predicate Valid()
      reads this, gauges.Values, overflowGauge
    {
      Shape() && Objects() && Values()
    }

    constructor (labels: seq<string>, maxSize: nat)
      ensures Valid() && this.labels == labels && this.maxSize == maxSize
      ensures cache == map[] && gauges == map[] && overflowGauge == null && log == []
    {
      this.labels := labels;
      this.maxSize := maxSize;
      cache := map[];
      gauges := map[];
      overflowGauge := null;
      seen := [];
      log := [];
    }

    /** First critical section: admit the key while there is room. */
    method Lookup(l: L.Labels) returns (attrs: Attrs)
      requires Valid() && L.Valid(labels, l)
      modifies this`cache, this`seen
      ensures Valid() && |cache| <= maxSize && old(seen) <= seen
      ensures var key := L.Key(labels, l);
              && key in seen
              && cache == (if key in old(cache) || |old(cache)| >= maxSize then old(cache) else old(cache)[key := AttrsOf(labels, l)])
              && attrs == AttrsFor(key)
              && (key in old(seen) ==> seen == old(seen) && cache == old(cache))
              && (key in cache && key !in old(cache) ==>
                    && attrs.Attributes? && |attrs.pairs| == |labels|
                    && forall i | 0 <= i < |labels| :: attrs.pairs[i] == (labels[i], l[labels[i]]))
      ensures After(old(Now()), Now())
    {
      var key := L.BuildKey(labels, l);
      CacheSize();
      attrs := LookupKey(key, AttrsOf(labels, l));
      CacheSize();
    }

    method LookupKey(key: string, given: Attrs) returns (attrs: Attrs)
      requires Valid() && given.Attributes?
      modifies this`cache, this`seen
      ensures Valid() && old(seen) <= seen && key in seen && attrs == AttrsFor(key)
      ensures cache == (if key in old(cache) || |old(cache)| >= maxSize then old(cache) else old(cache)[key := given])
      ensures key in old(seen) ==> seen == old(seen) && cache == old(cache)
      ensures After(old(Now()), Now())
    {
      if key in cache {
        attrs := cache[key];
        assert key in seen;
      } else if |cache| >= maxSize {
        attrs := OverflowSentinel;
        Refuse(key);
      } else {
        attrs := given;
        AdmitKey(key, attrs);
      }
    }

    /** What a lookup of the key gives once it is decided. */
    function AttrsFor(key: string): Attrs
      reads this
    {
      if key in cache then cache[key] else OverflowSentinel
    }

    ghost function Now(): Shot
      reads this
    {
      Shot(seen, cache, gauges, overflowGauge, log)
    }

    lemma CacheSize()
      requires Valid()
      ensures |cache| == if |seen| < maxSize then |seen| else maxSize
    {
      AdmittedSize(seen, maxSize);
      assert |cache| == |cache.Keys|;
    }

    method Admit(key: string, attrs: Attrs)
      requires Objects() && Values() && key !in cache && NoSentinel(cache) && attrs.Attributes?
      requires OverflowValue(log, cache.Keys + {key}) == OverflowValue(log, cache.Keys)
      requires ShapeOf(seen + [key], maxSize, cache.Keys + {key}, gauges.Keys, overflowGauge != null, log)
      modifies this`cache, this`seen
      ensures Valid() && cache == old(cache)[key := attrs] && seen == old(seen) + [key]
    {
      seen := seen + [key];
      Extend(key, attrs);
    }

    method AdmitKey(key: string, attrs: Attrs)
      requires Valid() && key !in cache && |cache| < maxSize && attrs.Attributes?
      modifies this`cache, this`seen
      ensures Valid() && cache == old(cache)[key := attrs] && seen == old(seen) + [key]
      ensures key !in old(seen) && After(old(Now()), Now())
    {
      Unseen(key);
      AdmittedAfter(Now(), key, attrs);
      Admits(key);
      Admit(key, attrs);
    }

    /** While there is room every key that was looked up is in the cache. */
    lemma Unseen(key: string)
      requires Valid() && key !in cache && |cache| < maxSize
      ensures key !in seen
    {
      CacheSize();
      AllAreAdmitted(seen, maxSize, key);
    }

    lemma Admits(key: string)
      requires Valid() && key !in cache && |cache| < maxSize
      ensures ShapeOf(seen + [key], maxSize, cache.Keys + {key}, gauges.Keys, overflowGauge != null, log)
      ensures OverflowValue(log, cache.Keys + {key}) == OverflowValue(log, cache.Keys)
    {
      CacheSize();
      AllAreAdmitted(seen, maxSize, key);
      AdmitShape(seen, maxSize, cache.Keys, gauges.Keys, overflowGauge != null, log, key, cache.Keys + {key});
    }

    /** An attribute set more leaves the gauges and their values as they are. */
    method Extend(key: string, attrs: Attrs)
      requires Objects() && Values() && key !in cache && NoSentinel(cache) && attrs.Attributes?
      requires OverflowValue(log, cache.Keys + {key}) == OverflowValue(log, cache.Keys)
      modifies this`cache
      ensures Objects() && Values() && NoSentinel(cache)
      ensures cache == old(cache)[key := attrs] && cache.Keys == old(cache.Keys) + {key}
    {
      assert key !in gauges;
      cache := cache[key := attrs];
      assert cache.Keys == old(cache.Keys) + {key};
    }

    /** A key that comes too late stays out for good. */
    ghost method Refuse(key: string)
      requires Valid() && key !in cache && |cache| >= maxSize
      modifies this`seen
      ensures Valid() && old(seen) <= seen && key in seen
      ensures key in old(seen) ==> seen == old(seen)
      ensures After(old(Now()), Now())
    {
      CacheSize();
      if key !in seen {
        RefuseShape(seen, maxSize, cache.Keys, gauges.Keys, overflowGauge != null, log, key);
        seen := seen + [key];
      }
    }

    /** Second critical section: the gauge of an admitted key, or the shared one. */
    method Bind(key: string, attrs: Attrs) returns (g: Gauge)
      requires Valid() && key in seen
      requires attrs == AttrsFor(key)
      modifies this`gauges, this`overflowGauge
      ensures Valid() && Served(key) && g == Slot(key)
      ensures New(old(gauges), old(overflowGauge)) && After(old(Now()), Now())
      ensures old(Served(key)) ==> gauges == old(gauges) && overflowGauge == old(overflowGauge)
    {
      if attrs == OverflowSentinel {
        if overflowGauge == null {
          NewOverflow();
        }
        g := overflowGauge;
      } else if key in gauges {
        g := gauges[key];
      } else {
        g := NewGauge(key, attrs);
      }
    }

    method NewOverflow()
      requires Valid() && overflowGauge == null
      modifies this`overflowGauge
      ensures Valid() && overflowGauge != null && fresh(overflowGauge) && After(old(Now()), Now())
    {
      NothingOverflowed();
      GaugeShape(seen, maxSize, cache.Keys, gauges.Keys, false, log, gauges.Keys, true);
      overflowGauge := new Gauge(OverflowSentinel);
      BoundAfter(old(Now()), gauges, overflowGauge);
    }

    method NewGauge(key: string, attrs: Attrs) returns (g: Gauge)
      requires Valid() && key in cache && key !in gauges && attrs == cache[key]
      modifies this`gauges
      ensures Valid() && gauges == old(gauges)[key := g] && fresh(g) && After(old(Now()), Now())
    {
      NothingLogged(key);
      GaugeShape(seen, maxSize, cache.Keys, gauges.Keys, overflowGauge != null, log, gauges.Keys + {key}, overflowGauge != null);
      g := PutGauge(key, attrs);
      BoundAfter(old(Now()), gauges, overflowGauge);
    }

    method PutGauge(key: string, attrs: Attrs) returns (g: Gauge)
      requires Objects() && Values() && key in cache && key !in gauges && attrs == cache[key] && NoSentinel(cache)
      requires LastValue(log, key) == 0.0
      requires ShapeOf(seen, maxSize, cache.Keys, gauges.Keys + {key}, overflowGauge != null, log)
      modifies this`gauges
      ensures Valid() && gauges == old(gauges)[key := g] && fresh(g)
    {
      g := new Gauge(attrs);
      assert gauges[key := g].Keys == gauges.Keys + {key};
      gauges := gauges[key := g];
    }

    /** The gauge the operations of a key go to. */
    ghost function Slot(key: string): Gauge?
      reads this
    {
      if key in cache then if key in gauges then gauges[key] else null else overflowGauge
    }

    lemma NothingLogged(key: string)
      requires Shape() && key in cache && key !in gauges
      ensures LastValue(log, key) == 0.0
    {
      assert forall i | 0 <= i < |log| :: Served(log[i].key);
      FreshKey(log, cache.Keys, key);
    }

    lemma NothingOverflowed()
      requires Shape() && overflowGauge == null
      ensures OverflowValue(log, cache.Keys) == 0.0
    {
      assert forall i | 0 <= i < |log| :: Served(log[i].key);
      AllAdmitted(log, cache.Keys);
    }

    /** Gauges that were not there before are new objects. */
    twostate predicate New(was: map<string, Gauge>, shared: Gauge?)
      reads this
    {
      && (forall k | k in gauges :: (k in was && gauges[k] == was[k]) || fresh(gauges[k]))
      && (overflowGauge == shared || (overflowGauge != null && fresh(overflowGauge)))
    }

    /** Who has its gauge keeps it. */
    lemma KeepsSlots(s: Shot)
      requires After(s, Now())
      ensures forall k | ServedIn(k, s.seen, s.cache.Keys, s.gauges.Keys, s.shared != null) ::
                && Served(k)
                && Slot(k) == if k in s.cache then s.gauges[k] else s.shared
    {
    }

    /** Both critical sections in a row. */
    method Obtain(l: L.Labels)
      requires Valid() && L.Valid(labels, l)
      modifies this`cache, this`seen, this`gauges, this`overflowGauge
      ensures Valid() && After(old(Now()), Now()) && Served(L.Key(labels, l)) && New(old(gauges), old(overflowGauge))
    {
      var attrs := Lookup(l);
      ghost var looked := Now();
      var key := L.BuildKey(labels, l);
      var g := Bind(key, attrs);
      AfterTrans(old(Now()), looked, Now());
    }

    /** Another caller comes as far as its lookup, its gauge or its operation. Where it has been
        before, the first sections change nothing. */
    method Elsewhere(c: Call)
      requires Valid()
      modifies this, gauges.Values, overflowGauge
      ensures Valid() && After(old(Now()), Now()) && New(old(gauges), old(overflowGauge))
    {
      if !L.Valid(labels, c.l) {
        return;
      }
      if c.Looks? {
        var _ := Lookup(c.l);
        return;
      }
      if c.Binds? {
        Obtain(c.l);
        return;
      }
      Operate(c.l, c.op);
    }

    method Operate(l: L.Labels, op: Op)
      requires Valid() && L.Valid(labels, l)
      modifies this, gauges.Values, overflowGauge
      ensures Valid() && After(old(Now()), Now()) && New(old(gauges), old(overflowGauge))
    {
      Obtain(l);
      ghost var bound := Now();
      var key := L.BuildKey(labels, l);
      Perform(key, op);
      AfterTrans(old(Now()), bound, Now());
    }

    /** The same gauge on every call for a label set, whatever other callers do between its two
        critical sections; rejects labels that do not fit. */
    method With(l: L.Labels, others: seq<Call>) returns (g: Gauge?)
      requires Valid()
      modifies this, gauges.Values, overflowGauge
      ensures Valid() && After(old(Now()), Now())
      ensures g != null <==> L.Valid(labels, l)
      ensures g != null ==> Served(L.Key(labels, l)) && g == Slot(L.Key(labels, l)) && |gauges| <= |cache| <= maxSize
      ensures forall k | old(Served(k)) :: Served(k) && Slot(k) == old(Slot(k))
      ensures others == [] ==> log == old(log)
    {
      var ok := L.ValidateLabels(labels, l);
      if !ok {
        return null;
      }
      g := Get(l, others);
    }

    method Get(l: L.Labels, others: seq<Call>) returns (g: Gauge)
      requires Valid() && L.Valid(labels, l)
      modifies this, gauges.Values, overflowGauge
      ensures Valid() && After(old(Now()), Now())
      ensures Served(L.Key(labels, l)) && g == Slot(L.Key(labels, l)) && |gauges| <= |cache| <= maxSize
      ensures forall k | old(Served(k)) :: Served(k) && Slot(k) == old(Slot(k))
      ensures others == [] ==> log == old(log)
    {
      ghost var before := Now();
      g := BothSections(l, others);
      Bounded();
      KeepsSlots(before);
    }

    method BothSections(l: L.Labels, others: seq<Call>) returns (g: Gauge)
      requires Valid() && L.Valid(labels, l)
      modifies this, gauges.Values, overflowGauge
      ensures Valid() && After(old(Now()), Now()) && Served(L.Key(labels, l)) && g == Slot(L.Key(labels, l))
      ensures others == [] ==> log == old(log)
    {
      var key, attrs := Decide(l, others);
      ghost var waited := Now();
      g := Bind(key, attrs);
      AfterTrans(old(Now()), waited, Now());
    }

    /** The first critical section, and what others do before the second. */
    method Decide(l: L.Labels, others: seq<Call>) returns (key: string, attrs: Attrs)
      requires Valid() && L.Valid(labels, l)
      modifies this, gauges.Values, overflowGauge
      ensures Valid() && After(old(Now()), Now())
      ensures key == L.Key(labels, l) && key in seen && attrs == AttrsFor(key)
      ensures others == [] ==> log == old(log)
    {
      attrs := Lookup(l);
      key := L.BuildKey(labels, l);
      ghost var looked := Now();
      Others(key, attrs, others);
      AfterTrans(old(Now()), looked, Now());
    }

    /** Whatever others do, a key stays decided as it was. */
    method Others(key: string, attrs: Attrs, others: seq<Call>)
      requires Valid() && key in seen && attrs == AttrsFor(key)
      modifies this, gauges.Values, overflowGauge
      ensures Valid() && After(old(Now()), Now()) && key in seen && attrs == AttrsFor(key)
      ensures New(old(gauges), old(overflowGauge))
      ensures others == [] ==> log == old(log)
    {
      for i := 0 to |others|
        invariant Valid() && After(old(Now()), Now()) && New(old(gauges), old(overflowGauge))
        invariant i == 0 ==> log == old(log)
      {
        ghost var now := Now();
        Elsewhere(others[i]);
        AfterTrans(old(Now()), now, Now());
      }
    }

    lemma Bounded()
      requires Valid()
      ensures |gauges| <= |cache| <= maxSize
    {
      SubsetSize(gauges.Keys, cache.Keys);
      CacheSize();
    }

    /** An operation on a gauge obtained by With. */
    method Perform(key: string, op: Op)
      requires Valid() && Served(key)
      modifies this`log, Slot(key)
      ensures Valid() && log == old(log) + [Entry(key, op)] && Slot(key) == old(Slot(key))
      ensures Moves(op, old(Slot(key).last), Slot(key).last)
    {
      var g := if key in cache then gauges[key] else overflowGauge;
      ghost var e := Entry(key, op);
      forall k ensures LastValue(log + [e], k) == if e.key == k then Apply(LastValue(log, k), e.op) else LastValue(log, k) {
        LastValueAppend(log, e, k);
      }
      OverflowAppend(log, e, cache.Keys);
      g.Perform(op);
      log := log + [e];
    }
  }

  lemma {:induction false} AllAdmitted(log: seq<Entry>, admitted: set<string>)
    requires forall i | 0 <= i < |log| :: log[i].key in admitted
    ensures OverflowValue(log, admitted) == 0.0
    decreases |log|
  {
    if log != [] {
      AllAdmitted(log[..|log| - 1], admitted);
    }
  }
}
