/** Sizes of sets, and the first few of a set by time. */
module Collections {

  lemma {:induction false} SubsetSize<T>(a: set<T>, b: set<T>)
    requires a <= b
    ensures |a| <= |b|
    decreases a
  {
    if a != {} {
      var x :| x in a;
      SubsetSize(a - {x}, b - {x});
    }
  }

  method Oldest(times: map<nat, int>, from: set<nat>) returns (oldest: nat)
    requires from != {} && from <= times.Keys
    ensures oldest in from && forall y | y in from :: times[oldest] <= times[y]
  {
    oldest :| oldest in from;
    var rest := from - {oldest};
    while rest != {}
      invariant oldest in from && rest <= from
      invariant forall y | y in from && y !in rest :: times[oldest] <= times[y]
      decreases rest
    {
      var id :| id in rest;
      rest := rest - {id};
      if times[id] < times[oldest] {
        oldest := id;
      }
    }
  }

  /** ORDER BY a time … LIMIT. */
  method PickOldest(times: map<nat, int>, from: set<nat>, limit: nat) returns (picked: set<nat>)
    requires from <= times.Keys
    ensures picked <= from && |picked| <= limit && (|picked| < limit ==> picked == from)
    ensures forall x, y | x in picked && y in from - picked :: times[x] <= times[y]
  {
    picked := {};
    var rest := from;
    while |picked| < limit && rest != {}
      invariant picked + rest == from && picked !! rest && |picked| <= limit
      invariant forall x, y | x in picked && y in rest :: times[x] <= times[y]
      decreases rest
    {
      var id := Oldest(times, rest);
      picked := picked + {id};
      rest := rest - {id};
    }
  }
}
