/** The slot array of a binding (mqcore/binding.c) on values: who is in it, and whose turn it is. */
module Members {
  import opened Bytes

  /** BINDING_MEMBERS_MAX. */
  const INITIAL_SLOTS := 8

  type Slots<T> = seq<Option<T>>

  function Count<T>(slots: Slots<T>): nat {
    if slots == [] then 0 else (if slots[0].Some? then 1 else 0) + Count(slots[1..])
  }

  /** The occupied slots from `lo` up to `hi`, in order. */
  function Occupied<T>(slots: Slots<T>, lo: nat, hi: nat): (r: seq<nat>)
    requires lo <= hi <= |slots|
    decreases hi - lo
  {
    if lo == hi then []
    else (if slots[lo].Some? then [lo] else []) + Occupied(slots, lo + 1, hi)
  }

  /** No sink is in two slots. */
  ghost predicate Distinct<T>(slots: Slots<T>) {
    forall i, j :: 0 <= i < j < |slots| && slots[i].Some? ==> slots[i] != slots[j]
  }

  // ---------------------------------------------------------------------------
  // Joining and leaving
  // ---------------------------------------------------------------------------

  function Blank<T>(n: nat): (s: Slots<T>)
    ensures |s| == n && forall i :: 0 <= i < n ==> s[i] == None
  {
    seq(n, _ => None)
  }

  /** The first empty slot from `i` on. */
  function FirstFree<T>(slots: Slots<T>, i: nat): (r: Option<nat>)
    requires i <= |slots|
    ensures r.Some? ==> i <= r.value < |slots| && slots[r.value] == None
    ensures forall j :: i <= j < (if r.Some? then r.value else |slots|) ==> slots[j].Some?
    decreases |slots| - i
  {
    if i == |slots| then None else if slots[i] == None then Some(i) else FirstFree(slots, i + 1)
  }

  /** binding_extend, with realloc's new slots empty. */
  function Extend<T>(slots: Slots<T>): Slots<T> {
    slots + Blank(|slots| / 2)
  }

  /** binding_subscribe: the slots afterwards, or None for its error return. */
  function Subscribe<T>(slots: Slots<T>, count: nat, x: T): Option<Slots<T>> {
    var s := if count == |slots| then Extend(slots) else slots;
    match FirstFree(s, 0)
    case None => None
    case Some(i) => Some(s[i := Some(x)])
  }

  /** binding_unsubscribe from slot `i` on: empties every slot of `x`, and stops when the last
      member is gone; the second result says that it stopped, having destroyed the binding. */
  function Unsubscribe<T(==)>(slots: Slots<T>, count: nat, x: T, i: nat): (Slots<T>, bool)
    requires i <= |slots|
    decreases |slots| - i
  {
    if i == |slots| then (slots, false)
    else if slots[i] != Some(x) then Unsubscribe(slots, count, x, i + 1)
    else if count <= 1 then (slots[i := None], true)
    else Unsubscribe(slots[i := None], count - 1, x, i + 1)
  }

  lemma {:induction false} CountConcat<T>(a: Slots<T>, b: Slots<T>)
    ensures Count(a + b) == Count(a) + Count(b)
  {
    if a == [] {
      assert a + b == b;
    } else {
      assert a + b == [a[0]] + (a[1..] + b);
      CountConcat(a[1..], b);
    }
  }

  lemma {:induction false} CountUpdate<T>(slots: Slots<T>, i: nat, x: Option<T>)
    requires i < |slots|
    ensures Count(slots[i := x]) + (if slots[i].Some? then 1 else 0) == Count(slots) + (if x.Some? then 1 else 0)
  {
    assert slots == slots[..i] + ([slots[i]] + slots[i + 1..]);
    assert slots[i := x] == slots[..i] + ([x] + slots[i + 1..]);
    CountConcat(slots[..i], [slots[i]] + slots[i + 1..]);
    CountConcat(slots[..i], [x] + slots[i + 1..]);
  }

  lemma {:induction false} CountBounds<T>(slots: Slots<T>)
    ensures Count(slots) <= |slots|
    ensures Count(slots) == |slots| <==> forall i :: 0 <= i < |slots| ==> slots[i].Some?
    ensures Count(slots) == 0 <==> forall i :: 0 <= i < |slots| ==> slots[i].None?
  {
    if slots != [] {
      var rest := slots[1..];
      CountBounds(rest);
      assert forall i :: 0 < i < |slots| ==> slots[i] == rest[i - 1];
      assert forall i :: 0 <= i < |rest| ==> rest[i] == slots[i + 1];
    }
  }

  lemma {:induction false} CountBlank<T>(n: nat)
    ensures Count(Blank<T>(n)) == 0
  {
    CountBounds(Blank<T>(n));
  }

  lemma SubscribeFinds<T>(slots: Slots<T>)
    requires |slots| >= 2
    ensures FirstFree(if Count(slots) == |slots| then Extend(slots) else slots, 0).Some?
  {
    CountBounds(slots);
    if Count(slots) == |slots| {
      assert Extend(slots)[|slots|] == None;
    }
  }

  /** Subscribing always finds a slot: the error return behind the loop cannot be reached. The count
      goes up by one, everybody keeps their slot, and the newcomer gets exactly one. */
  lemma SubscribeJoins<T>(slots: Slots<T>, x: T)
    requires |slots| >= 2
    ensures var r := Subscribe(slots, Count(slots), x);
            && r.Some? && |slots| <= |r.value| && Count(r.value) == Count(slots) + 1
            && (exists i :: 0 <= i < |r.value| && r.value[i] == Some(x)
                            && (i < |slots| ==> slots[i] == None)
                            && (forall j :: 0 <= j < |slots| && j != i ==> r.value[j] == slots[j])
                            && (forall j :: |slots| <= j < |r.value| && j != i ==> r.value[j] == None))
    ensures Count(slots) == |slots| ==> |slots| < |Subscribe(slots, Count(slots), x).value|
  {
    SubscribeFinds(slots);
    var s := if Count(slots) == |slots| then Extend(slots) else slots;
    CountConcat(slots, Blank(|slots| / 2));
    CountBlank<T>(|slots| / 2);
    var i := FirstFree(s, 0).value;
    CountUpdate(s, i, Some(x));
    assert s[i := Some(x)][i] == Some(x);
  }

  /** The newcomer gets the first empty slot; a full array grows by half. */
  lemma SubscribeTakesFirst<T>(slots: Slots<T>, x: T)
    requires |slots| >= 2
    ensures var r := Subscribe(slots, Count(slots), x);
            && r.Some?
            && |r.value| == (if forall j :: 0 <= j < |slots| ==> slots[j].Some? then |slots| + |slots| / 2 else |slots|)
            && exists i :: 0 <= i < |r.value| && r.value[i] == Some(x)
                           && forall j :: 0 <= j < i ==> j < |slots| && slots[j].Some? && r.value[j] == slots[j]
  {
    CountBounds(slots);
    SubscribeFinds(slots);
    var s := if Count(slots) == |slots| then Extend(slots) else slots;
    var i := FirstFree(s, 0).value;
    assert Count(slots) == |slots| ==> s[|slots|] == None;
    assert s[i := Some(x)][i] == Some(x);
  }

  /** With distinct members, leaving empties exactly the slot of `x`; the binding is destroyed
      exactly when `x` was its only member. This is also the case in which the loop of
      binding_unsubscribe would read the freed binding if it did not stop. */
  lemma {:induction false} UnsubscribeLeaves<T>(slots: Slots<T>, x: T, i: nat)
    requires Distinct(slots) && i <= |slots|
    requires forall j :: 0 <= j < i ==> slots[j] != Some(x)
    ensures var (s, destroyed) := Unsubscribe(slots, Count(slots), x, i);
            && |s| == |slots|
            && (forall j :: 0 <= j < |slots| ==> s[j] == (if slots[j] == Some(x) then None else slots[j]))
            && Count(s) == Count(slots) - (if Some(x) in slots then 1 else 0)
            && (destroyed <==> Some(x) in slots && Count(slots) == 1)
            && (destroyed ==> Count(s) == 0)
    decreases |slots| - i
  {
    if i < |slots| {
      if slots[i] != Some(x) {
        UnsubscribeLeaves(slots, x, i + 1);
      } else {
        CountUpdate(slots, i, None);
        var s := slots[i := None];
        assert forall j :: 0 <= j < |slots| && j != i ==> slots[j] != Some(x);
        if Count(slots) > 1 {
          assert Distinct(s);
          UnsubscribeLeaves(s, x, i + 1);
          assert Some(x) !in s;
        }
      }
    }
  }

  // ---------------------------------------------------------------------------
  // Round robin
  // ---------------------------------------------------------------------------

  /** The slot after slot `i` of `n`, cyclically. */
  function Next(i: nat, n: nat): (r: nat)
    requires i < n
    ensures r < n
  {
    if i + 1 == n then 0 else i + 1
  }

  lemma NextIsModulo(i: nat, n: nat)
    requires i < n
    ensures Next(i, n) == (i + 1) % n
  {
    if i + 1 < n {
      assert (i + 1) / n == 0;
    }
  }

  /** The scan of binding_queue_push_msg with `n` slots left to look at: the slot found, and
      biq_round afterwards. */
  function Pick<T>(slots: Slots<T>, round: nat, n: nat): (r: (Option<nat>, nat))
    requires round < |slots|
    ensures r.1 < |slots| && (r.0.Some? ==> r.0.value < |slots| && slots[r.0.value].Some?)
    decreases n
  {
    if n == 0 then (None, round)
    else if slots[round].Some? then (Some(round), Next(round, |slots|))
    else Pick(slots, Next(round, |slots|), n - 1)
  }

  /** The members in the order in which they are served from `round` on. */
  function Turn<T>(slots: Slots<T>, round: nat): seq<nat>
    requires round < |slots|
  {
    Occupied(slots, round, |slots|) + Occupied(slots, 0, round)
  }

  lemma {:induction false} OccupiedSplit<T>(slots: Slots<T>, lo: nat, mid: nat, hi: nat)
    requires lo <= mid <= hi <= |slots|
    ensures Occupied(slots, lo, hi) == Occupied(slots, lo, mid) + Occupied(slots, mid, hi)
    decreases mid - lo
  {
    if lo < mid {
      OccupiedSplit(slots, lo + 1, mid, hi);
    }
  }

  /** Passing over an empty slot does not change whose turn it is. */
  lemma SkipEmpty<T>(slots: Slots<T>, round: nat)
    requires round < |slots| && slots[round].None?
    ensures Turn(slots, Next(round, |slots|)) == Turn(slots, round)
  {
    OccupiedSplit(slots, 0, round, round + 1);
    OccupiedSplit(slots, round, round + 1, |slots|);
    var before, after := Occupied(slots, 0, round), Occupied(slots, round + 1, |slots|);
    assert Turn(slots, round) == after + before;
    assert Occupied(slots, 0, round + 1) == before;
  }

  /** Serving a member sends it to the end of the order. */
  lemma ServeFirst<T>(slots: Slots<T>, round: nat)
    requires round < |slots| && slots[round].Some?
    ensures var t := Turn(slots, round);
            t != [] && t[0] == round && Turn(slots, Next(round, |slots|)) == t[1..] + [round]
  {
    var n := |slots|;
    OccupiedSplit(slots, 0, round, round + 1);
    OccupiedSplit(slots, round, round + 1, n);
    var before, after := Occupied(slots, 0, round), Occupied(slots, round + 1, n);
    assert Turn(slots, round) == [round] + (after + before);
    assert Occupied(slots, 0, round + 1) == before + [round];
    assert after + (before + [round]) == after + before + [round];
  }

  lemma {:induction false} EmptyTurn<T>(slots: Slots<T>, round: nat, n: nat)
    requires round < |slots| && n <= |slots| && Turn(slots, round) == []
    ensures Pick(slots, round, n).0 == None
    ensures Pick(slots, round, n).1 == (if round + n < |slots| then round + n else round + n - |slots|)
    decreases n
  {
    if n > 0 {
      if slots[round].Some? {
        ServeFirst(slots, round);
      } else {
        SkipEmpty(slots, round);
        EmptyTurn(slots, Next(round, |slots|), n - 1);
      }
    }
  }

  /** The slot `k` steps after `round`. */
  function Ahead<T>(slots: Slots<T>, round: nat, k: nat): (i: nat)
    requires round < |slots| && k <= |slots|
    ensures i < |slots|
  {
    if round + k < |slots| then round + k else round + k - |slots|
  }

  lemma {:induction false} PickFinds<T>(slots: Slots<T>, round: nat, n: nat, k: nat)
    requires round < |slots| && k < n <= |slots| && slots[Ahead(slots, round, k)].Some?
    ensures var t, (i, round') := Turn(slots, round), Pick(slots, round, n);
            t != [] && i == Some(t[0]) && Turn(slots, round') == t[1..] + [t[0]]
    decreases n
  {
    if slots[round].Some? {
      ServeFirst(slots, round);
    } else {
      SkipEmpty(slots, round);
      assert k > 0 && Ahead(slots, Next(round, |slots|), k - 1) == Ahead(slots, round, k);
      PickFinds(slots, Next(round, |slots|), n - 1, k - 1);
    }
  }

  lemma {:induction false} OccupiedMembers<T>(slots: Slots<T>, lo: nat, hi: nat, i: nat)
    requires lo <= hi <= |slots|
    ensures i in Occupied(slots, lo, hi) <==> lo <= i < hi && slots[i].Some?
    decreases hi - lo
  {
    if lo < hi {
      OccupiedMembers(slots, lo + 1, hi, i);
    }
  }

  lemma TurnMembers<T>(slots: Slots<T>, round: nat, i: nat)
    requires round < |slots|
    ensures i in Turn(slots, round) <==> i < |slots| && slots[i].Some?
  {
    OccupiedMembers(slots, round, |slots|, i);
    OccupiedMembers(slots, 0, round, i);
  }

  /** A push serves the member whose turn it is and sends it to the end of the order, wherever the
      cursor stands and whatever holes the array has; without members it serves nobody. */
  lemma PickRotates<T>(slots: Slots<T>, round: nat)
    requires round < |slots|
    ensures var t, (i, round') := Turn(slots, round), Pick(slots, round, |slots|);
            if t == [] then i == None && round' == round
            else i == Some(t[0]) && Turn(slots, round') == t[1..] + [t[0]]
  {
    var t := Turn(slots, round);
    if t == [] {
      EmptyTurn(slots, round, |slots|);
    } else {
      TurnMembers(slots, round, t[0]);
      PickFinds(slots, round, |slots|, if t[0] >= round then t[0] - round else t[0] + |slots| - round);
    }
  }

  lemma {:induction false} OccupiedCount<T>(slots: Slots<T>, lo: nat, hi: nat)
    requires lo <= hi <= |slots|
    ensures |Occupied(slots, lo, hi)| == Count(slots[lo..hi])
    ensures forall a, b :: 0 <= a < b < |Occupied(slots, lo, hi)| ==>
                             lo <= Occupied(slots, lo, hi)[a] < Occupied(slots, lo, hi)[b]
    ensures forall a :: 0 <= a < |Occupied(slots, lo, hi)| ==> lo <= Occupied(slots, lo, hi)[a] < hi
    decreases hi - lo
  {
    if lo < hi {
      OccupiedCount(slots, lo + 1, hi);
      assert slots[lo..hi] == [slots[lo]] + slots[lo + 1..hi];
    }
  }

  ghost predicate NoRepeats(s: seq<nat>) {
    forall a, b :: 0 <= a < b < |s| ==> s[a] != s[b]
  }

  /** The order lists every member once. */
  lemma TurnIsOrder<T>(slots: Slots<T>, round: nat)
    requires round < |slots|
    ensures |Turn(slots, round)| == Count(slots) && NoRepeats(Turn(slots, round))
  {
    OccupiedCount(slots, 0, round);
    OccupiedCount(slots, round, |slots|);
    assert slots == slots[0..round] + slots[round..|slots|];
    CountConcat(slots[0..round], slots[round..|slots|]);
  }

  // ---------------------------------------------------------------------------
  // Fairness
  // ---------------------------------------------------------------------------

  /** The slots served by `n` pushes, and biq_round after them. */
  function Picks<T>(slots: Slots<T>, round: nat, n: nat): (r: (seq<nat>, nat))
    requires round < |slots|
    ensures r.1 < |slots|
  {
    if n == 0 then ([], round)
    else
      var (served, at) := Picks(slots, round, n - 1);
      var (i, next) := Pick(slots, at, |slots|);
      (if i.Some? then served + [i.value] else served, next)
  }

  function Attempts(served: seq<nat>, i: nat): nat {
    if served == [] then 0
    else Attempts(served[..|served| - 1], i) + (if served[|served| - 1] == i then 1 else 0)
  }

  /** Full rounds, and pushes since, after `n` pushes to `k` members. */
  function RoundsOf(n: nat, k: nat): (r: (nat, nat))
    requires 0 < k
    ensures r.1 < k
  {
    if n == 0 then (0, 0)
    else
      var (b, m) := RoundsOf(n - 1, k);
      if m + 1 < k then (b, m + 1) else (b + 1, 0)
  }

  lemma {:induction false} FirstRound(n: nat, k: nat)
    requires n <= k && 0 < k
    ensures RoundsOf(n, k) == if n < k then (0, n) else (1, 0)
  {
    if n > 0 {
      FirstRound(n - 1, k);
    }
  }

  /** Everybody was served in `b` full rounds, and the first `m` in the order `t` once more. */
  ghost predicate Served(t: seq<nat>, served: seq<nat>, b: nat, m: nat) {
    forall p :: 0 <= p < |t| ==> Attempts(served, t[p]) == b + (if p < m then 1 else 0)
  }

  lemma ServeNext(t: seq<nat>, served: seq<nat>, b: nat, m: nat)
    requires NoRepeats(t) && m < |t| && Served(t, served, b, m)
    ensures var more := served + [t[m]];
            if m + 1 < |t| then Served(t, more, b, m + 1) else Served(t, more, b + 1, 0)
  {
    var more := served + [t[m]];
    assert more[..|more| - 1] == served;
    assert forall p :: 0 <= p < |t| ==> Attempts(more, t[p]) == Attempts(served, t[p]) + (if p == m then 1 else 0);
  }

  /** The order `t` after `m` services. */
  function Rotated(t: seq<nat>, m: nat): seq<nat>
    requires m < |t|
  {
    t[m..] + t[..m]
  }

  lemma RotateNext(t: seq<nat>, m: nat)
    requires m < |t|
    ensures var now := Rotated(t, m);
            now[0] == t[m] && now[1..] + [t[m]] == Rotated(t, if m + 1 < |t| then m + 1 else 0)
  {
    if m + 1 < |t| {
      assert t[m..][1..] + t[..m] + [t[m]] == t[m + 1..] + t[..m + 1];
    } else {
      assert t[..m] + [t[m]] == t == t[0..] + t[..0];
      assert Rotated(t, m)[1..] == t[..m];
    }
  }

  /** After `n` pushes, from `at` on the members are served in the order `t` shifted by the pushes
      since the last full round, and everybody was served accordingly. */
  ghost predicate InRound<T>(slots: Slots<T>, at: nat, t: seq<nat>, served: seq<nat>, n: nat)
    requires at < |slots| && t != []
  {
    var (b, m) := RoundsOf(n, |t|);
    Turn(slots, at) == Rotated(t, m) && Served(t, served, b, m)
  }

  lemma RoundStep<T>(slots: Slots<T>, at: nat, t: seq<nat>, served: seq<nat>, n: nat)
    requires at < |slots| && t != [] && NoRepeats(t) && InRound(slots, at, t, served, n)
    ensures var (i, next) := Pick(slots, at, |slots|);
            i.Some? && InRound(slots, next, t, served + [i.value], n + 1)
  {
    var (b, m) := RoundsOf(n, |t|);
    PickRotates(slots, at);
    RotateNext(t, m);
    ServeNext(t, served, b, m);
  }

  lemma {:induction false} Rounds<T>(slots: Slots<T>, round: nat, t: seq<nat>, n: nat)
    requires round < |slots| && t != [] && NoRepeats(t) && InRound(slots, round, t, [], 0)
    ensures InRound(slots, Picks(slots, round, n).1, t, Picks(slots, round, n).0, n)
  {
    if n > 0 {
      var before := Picks(slots, round, n - 1);
      Rounds(slots, round, t, n - 1);
      RoundStep(slots, before.1, t, before.0, n - 1);
    }
  }

  lemma {:induction false} RoundsOfTurn<T>(slots: Slots<T>, round: nat, n: nat)
    requires round < |slots| && Turn(slots, round) != []
    ensures InRound(slots, Picks(slots, round, n).1, Turn(slots, round), Picks(slots, round, n).0, n)
  {
    var t := Turn(slots, round);
    TurnIsOrder(slots, round);
    assert Rotated(t, 0) == t;
    Rounds(slots, round, t, n);
  }

  lemma {:induction false} ServedAreMembers<T>(slots: Slots<T>, round: nat, n: nat, j: nat)
    requires round < |slots| && j < |slots| && Turn(slots, round) != []
    ensures |Picks(slots, round, n).0| == n
    ensures slots[j].None? ==> Attempts(Picks(slots, round, n).0, j) == 0
  {
    if n > 0 {
      ServedAreMembers(slots, round, n - 1, j);
      RoundsOfTurn(slots, round, n - 1);
      var (served, at) := Picks(slots, round, n - 1);
      PickRotates(slots, at);
      var i := Pick(slots, at, |slots|).0.value;
      assert (served + [i])[..|served|] == served;
    }
  }

  /** Fairness: with the membership unchanged, the numbers of pushes that any two members were
      served differ by at most one, and everybody else was served none. */
  lemma Fairness<T>(slots: Slots<T>, round: nat, n: nat, i: nat, j: nat)
    requires round < |slots| && i < |slots| && j < |slots| && slots[i].Some?
    ensures var served := Picks(slots, round, n).0;
            && |served| == n
            && (slots[j].Some? ==> Attempts(served, i) <= Attempts(served, j) + 1)
            && (slots[j].None? ==> Attempts(served, j) == 0)
  {
    var t := Turn(slots, round);
    TurnMembers(slots, round, i);
    TurnMembers(slots, round, j);
    RoundsOfTurn(slots, round, n);
    assert exists p :: 0 <= p < |t| && t[p] == i;
    ServedAreMembers(slots, round, n, j);
  }

  /** In particular any k pushes in a row, for k members, serve each of them exactly once. */
  lemma OneRound<T>(slots: Slots<T>, round: nat, i: nat)
    requires round < |slots| && i < |slots| && slots[i].Some?
    ensures Attempts(Picks(slots, round, Count(slots)).0, i) == 1
  {
    var t := Turn(slots, round);
    var k := |t|;
    TurnMembers(slots, round, i);
    TurnIsOrder(slots, round);
    RoundsOfTurn(slots, round, k);
    FirstRound(k, k);
    assert exists p :: 0 <= p < k && t[p] == i;
  }
}
