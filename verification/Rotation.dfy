/** The list of subscriptions of a client as it turns: the first that matches gets the message and
    goes to the end. `f` tells which subscriptions match. */
module Rotation {
  import opened Wrappers
  import opened Sequences

  datatype ConsumerName = ConsumerName(stream: string, name: string)

  datatype Handler = Handler(id: nat, subject: string, maxMsgs: Option<nat>, consumer: Option<ConsumerName>)

  /** Does not look at the limit. */
  ghost predicate Nominal(f: Handler -> bool) {
    forall h: Handler, m: Option<nat> :: f(h) == f(h.(maxMsgs := m))
  }

  /** No limit is used up: limits are at least 1. */
  predicate Positive(subs: seq<Handler>) {
    forall i :: 0 <= i < |subs| ==> subs[i].maxMsgs != Some(0)
  }

  /** What goes back to the end of the list. */
  function Back(h: Handler): seq<Handler>
    requires h.maxMsgs != Some(0)
  {
    if h.maxMsgs == Some(1) then []
    else if h.maxMsgs.Some? then [h.(maxMsgs := Some(h.maxMsgs.value - 1))]
    else [h]
  }

  function Rotated(subs: seq<Handler>, f: Handler -> bool): (r: seq<Handler>)
    requires Positive(subs)
    ensures Positive(r)
  {
    var i := FirstIndex(subs, f);
    if i == |subs| then subs else subs[..i] + subs[i + 1..] + Back(subs[i])
  }

  /** The subscriptions that match, or those that do not. */
  function Matching(subs: seq<Handler>, f: Handler -> bool, yes: bool): seq<Handler> {
    if subs == [] then []
    else if f(subs[0]) == yes then [subs[0]] + Matching(subs[1..], f, yes)
    else Matching(subs[1..], f, yes)
  }

  lemma {:induction false} MatchingConcat(a: seq<Handler>, b: seq<Handler>, f: Handler -> bool, yes: bool)
    ensures Matching(a + b, f, yes) == Matching(a, f, yes) + Matching(b, f, yes)
  {
    if a == [] {
      assert a + b == b;
    } else {
      assert (a + b)[1..] == a[1..] + b;
      MatchingConcat(a[1..], b, f, yes);
    }
  }

  lemma {:induction false} NoneMatch(subs: seq<Handler>, f: Handler -> bool)
    requires forall j :: 0 <= j < |subs| ==> !f(subs[j])
    ensures Matching(subs, f, true) == [] && Matching(subs, f, false) == subs
  {
    if subs != [] {
      NoneMatch(subs[1..], f);
    }
  }

  lemma MatchingHead(h: Handler, rest: seq<Handler>, f: Handler -> bool, yes: bool)
    ensures Matching([h] + rest, f, yes) == if f(h) == yes then [h] + Matching(rest, f, yes) else Matching(rest, f, yes)
  {
    assert ([h] + rest)[1..] == rest;
  }

  lemma MatchingBack(h: Handler, f: Handler -> bool, yes: bool)
    requires Nominal(f) && h.maxMsgs != Some(0)
    ensures Matching(Back(h), f, yes) == if f(h) == yes then Back(h) else []
  {
    if h.maxMsgs.Some? && h.maxMsgs != Some(1) {
      var back := h.(maxMsgs := Some(h.maxMsgs.value - 1));
      assert f(h) == f(back);
      MatchingHead(back, [], f, yes);
      assert [back] + [] == [back];
    } else if h.maxMsgs.None? {
      MatchingHead(h, [], f, yes);
      assert [h] + [] == [h];
    }
  }

  /** The list seen from the first that matches. */
  lemma MatchingFrom(a: seq<Handler>, h: Handler, b: seq<Handler>, f: Handler -> bool)
    requires f(h) && forall j :: 0 <= j < |a| ==> !f(a[j])
    ensures Matching(a + [h] + b, f, true) == [h] + Matching(b, f, true)
    ensures Matching(a + [h] + b, f, false) == a + Matching(b, f, false)
  {
    NoneMatch(a, f);
    assert a + [h] + b == a + ([h] + b);
    MatchingConcat(a, [h] + b, f, true);
    MatchingConcat(a, [h] + b, f, false);
    MatchingHead(h, b, f, true);
    MatchingHead(h, b, f, false);
  }

  lemma MatchingTurned(a: seq<Handler>, h: Handler, b: seq<Handler>, f: Handler -> bool)
    requires Nominal(f) && f(h) && h.maxMsgs != Some(0) && forall j :: 0 <= j < |a| ==> !f(a[j])
    ensures Matching(a + b + Back(h), f, true) == Matching(b, f, true) + Back(h)
    ensures Matching(a + b + Back(h), f, false) == a + Matching(b, f, false)
  {
    NoneMatch(a, f);
    MatchingBack(h, f, true);
    MatchingBack(h, f, false);
    MatchingConcat(a + b, Back(h), f, true);
    MatchingConcat(a + b, Back(h), f, false);
    MatchingConcat(a, b, f, true);
    MatchingConcat(a, b, f, false);
  }

  lemma SplitAt<T>(s: seq<T>, i: nat)
    requires i < |s|
    ensures s == s[..i] + [s[i]] + s[i + 1..]
  {
  }

  lemma HeadTail<T>(x: T, rest: seq<T>)
    ensures ([x] + rest)[0] == x && ([x] + rest)[1..] == rest
  {
  }

  /** One message: the first that matches serves and goes behind the others that match. */
  lemma RotatedMatching(subs: seq<Handler>, f: Handler -> bool)
    requires Positive(subs) && Nominal(f)
    ensures Matching(Rotated(subs, f), f, false) == Matching(subs, f, false)
    ensures FirstIndex(subs, f) == |subs| <==> Matching(subs, f, true) == []
    ensures FirstIndex(subs, f) < |subs| ==>
      && subs[FirstIndex(subs, f)] == Matching(subs, f, true)[0]
      && Matching(Rotated(subs, f), f, true) == Matching(subs, f, true)[1..] + Back(subs[FirstIndex(subs, f)])
  {
    var i := FirstIndex(subs, f);
    if i == |subs| {
      NoneMatch(subs, f);
    } else {
      var a, h, b := subs[..i], subs[i], subs[i + 1..];
      SplitAt(subs, i);
      MatchingFrom(a, h, b, f);
      MatchingTurned(a, h, b, f);
      HeadTail(h, Matching(b, f, true));
    }
  }

  /** The list after `n` messages, and who got them. */
  function Turns(subs: seq<Handler>, f: Handler -> bool, n: nat): (r: seq<Handler>)
    requires Positive(subs)
    ensures Positive(r)
    decreases n
  {
    if n == 0 then subs else Rotated(Turns(subs, f, n - 1), f)
  }

  function FirstId(subs: seq<Handler>, f: Handler -> bool): seq<nat> {
    var i := FirstIndex(subs, f);
    if i == |subs| then [] else [subs[i].id]
  }

  function Served(subs: seq<Handler>, f: Handler -> bool, n: nat): seq<nat>
    requires Positive(subs)
    decreases n
  {
    if n == 0 then [] else Served(subs, f, n - 1) + FirstId(Turns(subs, f, n - 1), f)
  }

  function Ids(hs: seq<Handler>): seq<nat> {
    seq(|hs|, i requires 0 <= i < |hs| => hs[i].id)
  }

  function Backs(hs: seq<Handler>): seq<Handler>
    requires Positive(hs)
  {
    if hs == [] then [] else Backs(hs[..|hs| - 1]) + Back(hs[|hs| - 1])
  }

  lemma {:induction false} MatchingPositive(subs: seq<Handler>, f: Handler -> bool, yes: bool)
    requires Positive(subs)
    ensures Positive(Matching(subs, f, yes))
  {
    if subs != [] {
      MatchingPositive(subs[1..], f, yes);
    }
  }

  /** After `n` messages those that served are behind, and the others as they were. */
  ghost predicate RoundAt(subs: seq<Handler>, f: Handler -> bool, n: nat)
    requires Positive(subs)
  {
    var m := Matching(subs, f, true);
    && n <= |m| && Positive(m[..n])
    && Served(subs, f, n) == Ids(m[..n])
    && Matching(Turns(subs, f, n), f, true) == m[n..] + Backs(m[..n])
    && Matching(Turns(subs, f, n), f, false) == Matching(subs, f, false)
  }

  lemma NextOfRound(m: seq<Handler>, n: nat)
    requires Positive(m) && n < |m|
    ensures Ids(m[..n + 1]) == Ids(m[..n]) + [m[n].id]
    ensures Backs(m[..n + 1]) == Backs(m[..n]) + Back(m[n])
    ensures (m[n..] + Backs(m[..n]))[0] == m[n] && (m[n..] + Backs(m[..n]))[1..] == m[n + 1..] + Backs(m[..n])
  {
    assert m[..n + 1][..n] == m[..n];
  }

  lemma ConcatTwice<T>(a: seq<T>, b: seq<T>, c: seq<T>)
    ensures a + b + c == a + (b + c)
  {
  }

  lemma RoundNext(subs: seq<Handler>, f: Handler -> bool, n: nat)
    requires Positive(subs) && Nominal(f) && RoundAt(subs, f, n) && n < |Matching(subs, f, true)|
    ensures RoundAt(subs, f, n + 1)
  {
    var m := Matching(subs, f, true);
    var t := Turns(subs, f, n);
    MatchingPositive(subs, f, true);
    RotatedMatching(t, f);
    NextOfRound(m, n);
    var i := FirstIndex(t, f);
    assert i < |t| && t[i] == m[n];
    assert Turns(subs, f, n + 1) == Rotated(t, f);
    assert Served(subs, f, n + 1) == Served(subs, f, n) + [m[n].id];
    ConcatTwice(m[n + 1..], Backs(m[..n]), Back(m[n]));
  }

  lemma {:induction false} PartOfRound(subs: seq<Handler>, f: Handler -> bool, n: nat)
    requires Positive(subs) && Nominal(f) && n <= |Matching(subs, f, true)|
    ensures RoundAt(subs, f, n)
    decreases n
  {
    var m := Matching(subs, f, true);
    if n == 0 {
      assert m[0..] + Backs(m[..0]) == m && Ids(m[..0]) == [];
    } else {
      PartOfRound(subs, f, n - 1);
      RoundNext(subs, f, n - 1);
    }
  }

  /** As many messages on a subject as subscriptions match it: each of these gets exactly one, in
      their order; they stay in that order, less those whose limit is used up, and the others are not
      moved among themselves. */
  lemma RoundIsFair(subs: seq<Handler>, f: Handler -> bool)
    requires Positive(subs) && Nominal(f)
    ensures var m := Matching(subs, f, true);
      && Positive(m)
      && Served(subs, f, |m|) == Ids(m)
      && Matching(Turns(subs, f, |m|), f, true) == Backs(m)
      && Matching(Turns(subs, f, |m|), f, false) == Matching(subs, f, false)
  {
    var m := Matching(subs, f, true);
    PartOfRound(subs, f, |m|);
    assert m[..|m|] == m && m[|m|..] == [];
  }

  predicate Unlimited(hs: seq<Handler>) {
    forall i :: 0 <= i < |hs| ==> hs[i].maxMsgs == None
  }

  predicate DistinctIds(hs: seq<Handler>) {
    forall i, j :: 0 <= i < j < |hs| ==> hs[i].id != hs[j].id
  }

  function Count(ids: seq<nat>, id: nat): nat {
    if ids == [] then 0 else Count(ids[..|ids| - 1], id) + if ids[|ids| - 1] == id then 1 else 0
  }

  /** Subscriptions without limits that match, in turn. */
  ghost predicate Endless(subs: seq<Handler>, f: Handler -> bool) {
    && Positive(subs) && Nominal(f)
    && Matching(subs, f, true) != [] && Unlimited(Matching(subs, f, true)) && DistinctIds(Matching(subs, f, true))
  }

  /** After `d` messages, `q` whole rounds and `r` more. */
  ghost predicate RotationIs(subs: seq<Handler>, f: Handler -> bool, d: nat, q: nat, r: nat)
    requires Positive(subs)
  {
    var m := Matching(subs, f, true);
    && r < |m|
    && Matching(Turns(subs, f, d), f, true) == m[r..] + m[..r]
    && forall i :: 0 <= i < |m| ==> Count(Served(subs, f, d), m[i].id) == q + if i < r then 1 else 0
  }

  lemma CountOneMore(ids: seq<nat>, id: nat, x: nat)
    ensures Count(ids + [id], x) == Count(ids, x) + if x == id then 1 else 0
  {
    assert (ids + [id])[..|ids|] == ids;
  }

  lemma RotateOnce<T>(m: seq<T>, r: nat)
    requires r < |m|
    ensures (m[r..] + m[..r])[0] == m[r]
    ensures (m[r..] + m[..r])[1..] + [m[r]] == m[r + 1..] + m[..r + 1]
  {
    HeadTail(m[r], m[r + 1..] + m[..r]);
    assert m[r..] + m[..r] == [m[r]] + (m[r + 1..] + m[..r]);
  }

  lemma TurnOnce(subs: seq<Handler>, f: Handler -> bool, d: nat, q: nat, r: nat)
    requires Endless(subs, f) && RotationIs(subs, f, d, q, r)
    ensures var m := Matching(subs, f, true);
      && Matching(Turns(subs, f, d + 1), f, true) == m[r + 1..] + m[..r + 1]
      && Served(subs, f, d + 1) == Served(subs, f, d) + [m[r].id]
  {
    var m := Matching(subs, f, true);
    RotatedMatching(Turns(subs, f, d), f);
    RotateOnce(m, r);
  }

  lemma RotationNext(subs: seq<Handler>, f: Handler -> bool, d: nat, q: nat, r: nat)
    requires Endless(subs, f) && RotationIs(subs, f, d, q, r)
    ensures if r + 1 < |Matching(subs, f, true)| then RotationIs(subs, f, d + 1, q, r + 1)
            else RotationIs(subs, f, d + 1, q + 1, 0)
  {
    var m := Matching(subs, f, true);
    TurnOnce(subs, f, d, q, r);
    forall i | 0 <= i < |m|
      ensures Count(Served(subs, f, d + 1), m[i].id) == Count(Served(subs, f, d), m[i].id) + if i == r then 1 else 0
    {
      CountOneMore(Served(subs, f, d), m[r].id, m[i].id);
    }
    assert m[|m|..] + m[..|m|] == m && m[0..] + m[..0] == m;
  }

  lemma {:induction false} MulMono(a: nat, b: nat, k: nat)
    requires a < b
    ensures a * k + k <= b * k
    decreases b
  {
    assert b * k == (b - 1) * k + k;
    if a + 1 < b {
      MulMono(a, b - 1, k);
    }
  }

  lemma DivIs(d: nat, k: nat, q: nat, r: nat)
    requires d == q * k + r && r < k
    ensures d / k == q && d % k == r
  {
    var q', r' := d / k, d % k;
    assert d == q' * k + r';
    if q' > q {
      MulMono(q, q', k);
    } else if q' < q {
      MulMono(q', q, k);
    }
  }

  lemma RotationStart(subs: seq<Handler>, f: Handler -> bool)
    requires Endless(subs, f)
    ensures RotationIs(subs, f, 0, 0, 0)
  {
    var m := Matching(subs, f, true);
    assert m[0..] + m[..0] == m;
  }

  /** One of `k` positions further. */
  function NextTurn(k: nat, q: nat, r: nat): (nat, nat) {
    if r + 1 < k then (q, r + 1) else (q + 1, 0)
  }

  lemma DivNext(d: nat, k: nat)
    requires k > 0
    ensures NextTurn(k, d / k, d % k) == ((d + 1) / k, (d + 1) % k)
  {
    var (q, r) := NextTurn(k, d / k, d % k);
    assert (d / k + 1) * k == (d / k) * k + k;
    assert d + 1 == q * k + r;
    DivIs(d + 1, k, q, r);
  }

  function Round(k: nat, d: nat): (nat, nat) {
    if d == 0 then (0, 0) else NextTurn(k, Round(k, d - 1).0, Round(k, d - 1).1)
  }

  lemma {:induction false} RoundIsDivision(k: nat, d: nat)
    requires k > 0
    ensures Round(k, d) == (d / k, d % k)
  {
    if d == 0 {
      DivIs(0, k, 0, 0);
    } else {
      RoundIsDivision(k, d - 1);
      DivNext(d - 1, k);
    }
  }

  lemma {:induction false} RotationRound(subs: seq<Handler>, f: Handler -> bool, d: nat)
    requires Endless(subs, f)
    ensures var (q, r) := Round(|Matching(subs, f, true)|, d); RotationIs(subs, f, d, q, r)
    decreases d
  {
    if d == 0 {
      RotationStart(subs, f);
    } else {
      RotationRound(subs, f, d - 1);
      var (q, r) := Round(|Matching(subs, f, true)|, d - 1);
      RotationNext(subs, f, d - 1, q, r);
    }
  }

  /** Without limits, after any number of messages the counts of two subscriptions that match differ
      by at most one, those in front having the one more. */
  lemma CountsAreEven(subs: seq<Handler>, f: Handler -> bool, d: nat)
    requires Endless(subs, f)
    ensures var k := |Matching(subs, f, true)|; RotationIs(subs, f, d, d / k, d % k)
  {
    RotationRound(subs, f, d);
    RoundIsDivision(|Matching(subs, f, true)|, d);
  }

  lemma {:induction false} TurnsFirst(subs: seq<Handler>, f: Handler -> bool, n: nat)
    requires Positive(subs) && n > 0
    ensures Turns(subs, f, n) == Turns(Rotated(subs, f), f, n - 1)
    decreases n
  {
    if n > 1 {
      TurnsFirst(subs, f, n - 1);
    } else {
      assert Turns(subs, f, 0) == subs;
    }
  }

  lemma {:induction false} ServedFirst(subs: seq<Handler>, f: Handler -> bool, n: nat)
    requires Positive(subs) && n > 0
    ensures Served(subs, f, n) == FirstId(subs, f) + Served(Rotated(subs, f), f, n - 1)
    decreases n
  {
    if n > 1 {
      TurnsFirst(subs, f, n - 1);
      ServedFirst(subs, f, n - 1);
      ConcatTwice(FirstId(subs, f), Served(Rotated(subs, f), f, n - 2), FirstId(Turns(subs, f, n - 1), f));
    } else {
      assert Turns(subs, f, 0) == subs && Served(subs, f, 0) == [];
    }
  }
}
