/**
 * The observable effects of the engine: writes to the store and deliveries
 * to status listeners, in the order they happen.
 */
module Events {
  import opened Basics
  import opened Status
  import Repository

  /** A status listener, known only by its identity. */
  type ListenerId = nat

  /** The registered listeners in the order a fan-out visits them; a set, so no repeats. */
  type Registry = ls: seq<ListenerId> | Distinct(ls) witness []

  /** What a listener is told: a new alarm status, or the raw cat-detection result. */
  datatype Message = StatusChanged(status: AlarmStatus) | CatSeen(cat: bool)

  datatype Effect =
    | Wrote(write: Repository.Write)
    | Delivered(listener: ListenerId, message: Message)

  /** One delivery of `m` to each listener, in registry order. */
  function FanOut(ls: seq<ListenerId>, m: Message): (es: seq<Effect>)
    ensures |es| == |ls|
    ensures forall i :: 0 <= i < |ls| ==> es[i] == Delivered(ls[i], m)
  {
    if ls == [] then [] else [Delivered(ls[0], m)] + FanOut(ls[1..], m)
  }

  /** The writes among `es`, in order. */
  function Writes(es: seq<Effect>): seq<Repository.Write> {
    if es == [] then []
    else (if es[0].Wrote? then [es[0].write] else []) + Writes(es[1..])
  }

  /** The store obtained by applying the writes among `es` to `r`, in order. */
  function Replay(r: Repository.Repo, es: seq<Effect>): Repository.Repo
    decreases |es|
  {
    if es == [] then r
    else Replay(if es[0].Wrote? then Repository.Apply(r, es[0].write) else r, es[1..])
  }

  lemma {:induction false} WritesConcat(a: seq<Effect>, b: seq<Effect>)
    ensures Writes(a + b) == Writes(a) + Writes(b)
  {
    if a == [] {
      assert a + b == b;
    } else {
      var ab := a + b;
      assert ab[0] == a[0];
      assert ab[1..] == a[1..] + b;
      WritesConcat(a[1..], b);
      var head := if a[0].Wrote? then [a[0].write] else [];
      assert Writes(ab) == head + Writes(a[1..] + b);
      assert Writes(a) == head + Writes(a[1..]);
    }
  }

  /** A single logged write contributes exactly that write. */
  lemma WritesOne(w: Repository.Write)
    ensures Writes([Wrote(w)]) == [w]
  {
    assert [Wrote(w)][1..] == [];
  }

  lemma {:induction false} ReplayConcat(r: Repository.Repo, a: seq<Effect>, b: seq<Effect>)
    ensures Replay(r, a + b) == Replay(Replay(r, a), b)
    decreases |a|
  {
    if a == [] {
      assert a + b == b;
    } else {
      assert (a + b)[1..] == a[1..] + b;
      ReplayConcat(if a[0].Wrote? then Repository.Apply(r, a[0].write) else r, a[1..], b);
    }
  }

  /** A fan-out writes nothing to the store. */
  lemma {:induction false} FanOutWritesNothing(ls: seq<ListenerId>, m: Message, r: Repository.Repo)
    ensures Writes(FanOut(ls, m)) == []
    ensures Replay(r, FanOut(ls, m)) == r
  {
    if ls != [] {
      var es := FanOut(ls, m);
      assert es[1..] == FanOut(ls[1..], m);
      FanOutWritesNothing(ls[1..], m, r);
    }
  }

  /** How many times `e` occurs in `es`. */
  function Occurrences(es: seq<Effect>, e: Effect): nat {
    if es == [] then 0 else (if es[0] == e then 1 else 0) + Occurrences(es[1..], e)
  }

  lemma {:induction false} OccurrencesConcat(a: seq<Effect>, b: seq<Effect>, e: Effect)
    ensures Occurrences(a + b, e) == Occurrences(a, e) + Occurrences(b, e)
  {
    if a == [] {
      assert a + b == b;
    } else {
      assert (a + b)[1..] == a[1..] + b;
      OccurrencesConcat(a[1..], b, e);
    }
  }

  /**
   * Each registered listener receives a fan-out of `m` exactly once; nobody
   * else receives it, and it delivers no other message.
   */
  lemma {:induction false} FanOutDeliversOnce(ls: seq<ListenerId>, m: Message, l: ListenerId, m': Message)
    requires Distinct(ls)
    ensures Occurrences(FanOut(ls, m), Delivered(l, m')) == if l in ls && m' == m then 1 else 0
  {
    if ls != [] {
      assert FanOut(ls, m)[1..] == FanOut(ls[1..], m);
      assert Distinct(ls[1..]);
      FanOutDeliversOnce(ls[1..], m, l, m');
      assert l in ls <==> l == ls[0] || l in ls[1..];
    }
  }

  /** In `es`, every delivery of `first` comes before every delivery of `second`. */
  predicate DeliveredBefore(es: seq<Effect>, first: Message, second: Message) {
    forall i, j ::
      (&& 0 <= j < |es| && 0 <= i < |es|
       && es[j].Delivered? && es[j].message == first
       && es[i].Delivered? && es[i].message == second) ==> j < i
  }

  /**
   * An alarm write announced with `first` and then with `second`: each
   * registered listener receives each message exactly once.
   */
  lemma {:induction false} AnnouncedTwiceCounts(w: Repository.Write, ls: seq<ListenerId>,
                                                 first: Message, second: Message, l: ListenerId)
    requires Distinct(ls) && first != second
    ensures var es := [Wrote(w)] + FanOut(ls, first) + FanOut(ls, second);
      && Occurrences(es, Delivered(l, first)) == (if l in ls then 1 else 0)
      && Occurrences(es, Delivered(l, second)) == (if l in ls then 1 else 0)
  {
    var f1 := FanOut(ls, first);
    var f2 := FanOut(ls, second);
    OccurrencesConcat([Wrote(w)], f1, Delivered(l, first));
    OccurrencesConcat([Wrote(w)] + f1, f2, Delivered(l, first));
    OccurrencesConcat([Wrote(w)], f1, Delivered(l, second));
    OccurrencesConcat([Wrote(w)] + f1, f2, Delivered(l, second));
    FanOutDeliversOnce(ls, first, l, first);
    FanOutDeliversOnce(ls, first, l, second);
    FanOutDeliversOnce(ls, second, l, first);
    FanOutDeliversOnce(ls, second, l, second);
  }

  /** In an alarm write announced with `first` and then with `second`, every `first` delivery precedes every `second` one. */
  lemma {:induction false} AnnouncedTwiceOrder(w: Repository.Write, ls: seq<ListenerId>, first: Message, second: Message)
    requires first != second
    ensures DeliveredBefore([Wrote(w)] + FanOut(ls, first) + FanOut(ls, second), first, second)
  {
    var es := [Wrote(w)] + FanOut(ls, first) + FanOut(ls, second);
    var n := |ls|;
    assert forall i :: 0 <= i <= n ==> !(es[i].Delivered? && es[i].message == second);
    assert forall j :: n < j < |es| ==> !(es[j].Delivered? && es[j].message == first);
  }
}
