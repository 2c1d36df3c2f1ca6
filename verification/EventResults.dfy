/** What receives and sends do, said of single event bits. */
module EventResults {
  import opened WaitQueue
  import opened EventSpec

  // ---------------------------------------------------------------------------------
  // Event sets as sets of bit numbers
  // ---------------------------------------------------------------------------------

  predicate HasBit(s: bv32, n: bv32)
    requires n < 32
  {
    (s >> n) & 1 == 1
  }

  ghost function Bits(s: bv32): iset<bv32> {
    iset n: bv32 | n < 32 && HasBit(s, n)
  }

  lemma {:induction false} BothBit(a: bv32, b: bv32, n: bv32)
    requires n < 32
    ensures HasBit(Both(a, b), n) <==> HasBit(a, n) && HasBit(b, n)
  {
  }

  lemma {:induction false} EitherBit(a: bv32, b: bv32, n: bv32)
    requires n < 32
    ensures HasBit(Either(a, b), n) <==> HasBit(a, n) || HasBit(b, n)
  {
  }

  function Not(a: bv32): bv32 { !a }

  lemma {:induction false} NotBit(a: bv32, n: bv32)
    requires n < 32
    ensures HasBit(Not(a), n) <==> !HasBit(a, n)
  {
  }

  lemma {:induction false} MinusBit(a: bv32, b: bv32, n: bv32)
    requires n < 32
    ensures HasBit(Minus(a, b), n) <==> HasBit(a, n) && !HasBit(b, n)
  {
    assert Minus(a, b) == Both(a, Not(b));
    hide HasBit, Minus, Both, Not;
    BothBit(a, Not(b), n);
    NotBit(b, n);
  }

  /** The bits determine the set. */
  lemma {:induction false} SameBits(a: bv32, b: bv32)
    requires Bits(a) == Bits(b)
    ensures a == b
  {
    forall n: bv32 | n < 32 ensures HasBit(a, n) == HasBit(b, n) {
      assert n in Bits(a) <==> n in Bits(b);
    }
    hide HasBit, Both, Either, Bits;
    FirstByte(a, b);
    SecondByte(a, b);
    ThirdByte(a, b);
    FourthByte(a, b);
    FourBytes(a);
    FourBytes(b);
  }

  lemma {:induction false} FirstByte(a: bv32, b: bv32)
    requires HasBit(a, 0) == HasBit(b, 0) && HasBit(a, 1) == HasBit(b, 1) && HasBit(a, 2) == HasBit(b, 2) && HasBit(a, 3) == HasBit(b, 3)
    requires HasBit(a, 4) == HasBit(b, 4) && HasBit(a, 5) == HasBit(b, 5) && HasBit(a, 6) == HasBit(b, 6) && HasBit(a, 7) == HasBit(b, 7)
    ensures Both(a, 0x0000_00FF) == Both(b, 0x0000_00FF)
  {
  }

  lemma {:induction false} SecondByte(a: bv32, b: bv32)
    requires HasBit(a, 8) == HasBit(b, 8) && HasBit(a, 9) == HasBit(b, 9) && HasBit(a, 10) == HasBit(b, 10) && HasBit(a, 11) == HasBit(b, 11)
    requires HasBit(a, 12) == HasBit(b, 12) && HasBit(a, 13) == HasBit(b, 13) && HasBit(a, 14) == HasBit(b, 14) && HasBit(a, 15) == HasBit(b, 15)
    ensures Both(a, 0x0000_FF00) == Both(b, 0x0000_FF00)
  {
  }

  lemma {:induction false} ThirdByte(a: bv32, b: bv32)
    requires HasBit(a, 16) == HasBit(b, 16) && HasBit(a, 17) == HasBit(b, 17) && HasBit(a, 18) == HasBit(b, 18) && HasBit(a, 19) == HasBit(b, 19)
    requires HasBit(a, 20) == HasBit(b, 20) && HasBit(a, 21) == HasBit(b, 21) && HasBit(a, 22) == HasBit(b, 22) && HasBit(a, 23) == HasBit(b, 23)
    ensures Both(a, 0x00FF_0000) == Both(b, 0x00FF_0000)
  {
  }

  lemma {:induction false} FourthByte(a: bv32, b: bv32)
    requires HasBit(a, 24) == HasBit(b, 24) && HasBit(a, 25) == HasBit(b, 25) && HasBit(a, 26) == HasBit(b, 26) && HasBit(a, 27) == HasBit(b, 27)
    requires HasBit(a, 28) == HasBit(b, 28) && HasBit(a, 29) == HasBit(b, 29) && HasBit(a, 30) == HasBit(b, 30) && HasBit(a, 31) == HasBit(b, 31)
    ensures Both(a, 0xFF00_0000) == Both(b, 0xFF00_0000)
  {
  }

  lemma {:induction false} FourBytes(a: bv32)
    ensures a == Either(Either(Both(a, 0x0000_00FF), Both(a, 0x0000_FF00)), Either(Both(a, 0x00FF_0000), Both(a, 0xFF00_0000)))
  {
  }

  lemma {:induction false} BitsOfBoth(a: bv32, b: bv32)
    ensures Bits(Both(a, b)) == Bits(a) * Bits(b)
  {
    forall n: bv32 | n < 32 ensures HasBit(Both(a, b), n) <==> HasBit(a, n) && HasBit(b, n) {
      BothBit(a, b, n);
    }
    hide HasBit, Both;
  }

  lemma {:induction false} BitsOfEither(a: bv32, b: bv32)
    ensures Bits(Either(a, b)) == Bits(a) + Bits(b)
  {
    forall n: bv32 | n < 32 ensures HasBit(Either(a, b), n) <==> HasBit(a, n) || HasBit(b, n) {
      EitherBit(a, b, n);
    }
    hide HasBit, Either;
  }

  lemma {:induction false} BitsOfMinus(a: bv32, b: bv32)
    ensures Bits(Minus(a, b)) == Bits(a) - Bits(b)
  {
    forall n: bv32 | n < 32 ensures HasBit(Minus(a, b), n) <==> HasBit(a, n) && !HasBit(b, n) {
      MinusBit(a, b, n);
    }
    hide HasBit, Minus;
  }

  lemma {:induction false} ZeroIff(s: bv32)
    ensures s == 0 <==> Bits(s) == iset{}
  {
    ZeroBits();
    hide HasBit;
    assert Bits(0) == iset{};
    if Bits(s) == iset{} {
      SameBits(s, 0);
    }
  }

  lemma {:induction false} ZeroBits()
    ensures forall n: bv32 | n < 32 :: !HasBit(0, n)
  {
  }

  lemma {:induction false} WithinIff(a: bv32, b: bv32)
    ensures Both(a, b) == b <==> Bits(b) <= Bits(a)
  {
    BitsOfBoth(a, b);
    hide Both, Bits;
    if Bits(b) <= Bits(a) {
      assert Bits(a) * Bits(b) == Bits(b);
      SameBits(Both(a, b), b);
    }
  }

  lemma {:induction false} MeetIff(a: bv32, b: bv32)
    ensures Both(a, b) != 0 <==> Bits(a) * Bits(b) != iset{}
  {
    BitsOfBoth(a, b);
    ZeroIff(Both(a, b));
    hide Both, Bits;
  }

  /** RT_EVENT_FLAG_AND: every bit asked for is there.  RT_EVENT_FLAG_OR: some bit asked for is there. */
  ghost predicate Wakes(s: iset<bv32>, w: Wish) {
    if w.conj then Bits(w.bits) <= s else w.disj && s * Bits(w.bits) != iset{}
  }

  lemma {:induction false} SatisfiedIff(bitSet: bv32, w: Wish)
    ensures Satisfied(bitSet, w) <==> Wakes(Bits(bitSet), w)
  {
    WithinIff(bitSet, w.bits);
    MeetIff(bitSet, w.bits);
    hide Both, Bits;
  }

  /** The bits that stay after a receive: with RT_EVENT_FLAG_CLEAR, those not asked for */
  ghost function After(s: iset<bv32>, w: Wish): iset<bv32> {
    if w.clear then s - Bits(w.bits) else s
  }

  lemma {:induction false} LeftIs(bitSet: bv32, w: Wish)
    ensures Bits(Left(bitSet, w)) == After(Bits(bitSet), w) && Bits(Received(bitSet, w)) == Bits(bitSet) * Bits(w.bits)
  {
    BitsOfMinus(bitSet, w.bits);
    BitsOfBoth(bitSet, w.bits);
    hide Minus, Both, Bits;
  }

  // ---------------------------------------------------------------------------------
  // rt_event_recv
  // ---------------------------------------------------------------------------------

  /**
    A receive ends at once exactly if what it asks for is there; otherwise it gives up exactly
    if it may not wait.  A receive of no bits fails.
   */
  lemma {:induction false} RecvAnswers(e: Event, t: nat, prio: nat, w: Wish, timeout: int)
    ensures
      var r := Recv(e, t, prio, w, timeout).1;
      && (r == Failed <==> w.bits == 0)
      && (w.bits != 0 ==>
           && (r == Ok <==> Wakes(Bits(e.bitSet), w))
           && (r == TimedOut <==> !Wakes(Bits(e.bitSet), w) && timeout == 0)
           && (r == Blocked <==> !Wakes(Bits(e.bitSet), w) && timeout != 0))
  {
    SatisfiedIff(e.bitSet, w);
    hide Satisfied, Bits, Wakes, Enqueue;
  }

  /** A receive that succeeds returns the bits it shares with the set, and clears what it is to clear. */
  lemma {:induction false} RecvTakes(e: Event, t: nat, prio: nat, w: Wish, timeout: int)
    requires Recv(e, t, prio, w, timeout).1 == Ok
    ensures
      var (v, _, got) := Recv(e, t, prio, w, timeout);
      && Bits(got) == Bits(e.bitSet) * Bits(w.bits) && Bits(v.bitSet) == After(Bits(e.bitSet), w)
      && v == e.(bitSet := v.bitSet)
  {
    LeftIs(e.bitSet, w);
    hide Satisfied, Bits, After, Enqueue;
  }

  /** A receive that fails or gives up changes nothing; one that blocks only adds the thread to the list. */
  lemma {:induction false} RecvWaits(e: Event, t: nat, prio: nat, w: Wish, timeout: int)
    ensures
      var (v, r, got) := Recv(e, t, prio, w, timeout);
      && (r == Failed || r == TimedOut ==> v == e)
      && (r == Blocked ==>
           && v == e.(waiters := v.waiters, clock := e.clock + 1)
           && (forall x :: x in v.waiters <==> x in e.waiters || x == Waiter(t, prio, e.clock, timeout, w)))
  {
    EnqueueMembers(e.flag, e.waiters, Waiter(t, prio, e.clock, timeout, w));
    hide Satisfied, Enqueue;
  }

  // ---------------------------------------------------------------------------------
  // rt_event_send
  // ---------------------------------------------------------------------------------

  /** The set when the loop of rt_event_send comes to the waiting thread `k`, if it began with `s` */
  ghost function SetAt(s: iset<bv32>, q: seq<Receiver>, k: nat): iset<bv32>
    requires k <= |q|
  {
    if k == 0 then s
    else
      var b := SetAt(s, q, k - 1);
      if Wakes(b, q[k - 1].info) then After(b, q[k - 1].info) else b
  }

  lemma {:induction false} SetAtTail(s: iset<bv32>, q: seq<Receiver>, k: nat)
    requires 0 < k <= |q|
    ensures SetAt(s, q, k) == SetAt(if Wakes(s, q[0].info) then After(s, q[0].info) else s, q[1..], k - 1)
  {
    hide Wakes, After;
    if k > 1 {
      SetAtTail(s, q, k - 1);
      assert q[1..][k - 2] == q[k - 1];
    } else {
      assert SetAt(s, q, 0) == s;
    }
  }

  /** What became of the waiting thread `k` */
  ghost predicate Served(s: iset<bv32>, q: seq<Receiver>, k: nat, rest: seq<Receiver>, woken: map<nat, bv32>, after: map<nat, bv32>)
    requires k < |q|
  {
    var b, w := SetAt(s, q, k), q[k];
    if Wakes(b, w.info) then
      w !in rest && w.tid in after && Bits(after[w.tid]) == b * Bits(w.info.bits)
    else
      w in rest && (w.tid in after <==> w.tid in woken) && (w.tid in woken ==> after[w.tid] == woken[w.tid])
  }

  lemma {:induction false} ServeOthers(bitSet: bv32, q: seq<Receiver>, woken: map<nat, bv32>, t: nat)
    requires t !in Tids(q)
    ensures
      var (s, rest, wk) := Serve(bitSet, q, woken);
      && (t in wk <==> t in woken) && (t in woken ==> wk[t] == woken[t])
      && (forall w :: w in rest ==> w in q)
    decreases |q|
  {
    hide Satisfied, Left, Received;
    if q != [] {
      assert q[0] in q;
      forall w | w in q[1..] ensures w in q && w.tid != t {
        assert w.tid in Tids(q);
      }
      var w := q[0];
      if Satisfied(bitSet, w.info) {
        ServeOthers(Left(bitSet, w.info), q[1..], woken[w.tid := Received(bitSet, w.info)], t);
      } else {
        ServeOthers(bitSet, q[1..], woken, t);
      }
    }
  }

  lemma {:induction false} HeadApart(q: seq<Receiver>)
    requires Distinct(q) && q != []
    ensures Distinct(q[1..]) && q[0].tid !in Tids(q[1..])
    ensures forall w | w in q[1..] :: w in q && w.tid != q[0].tid
  {
    forall w | w in q[1..] ensures w in q && w.tid != q[0].tid {
      var k :| 0 <= k < |q[1..]| && q[1..][k] == w;
      assert q[k + 1] == w;
    }
  }

  lemma {:induction false} ServeHead(bitSet: bv32, q: seq<Receiver>, woken: map<nat, bv32>)
    requires Distinct(q) && q != []
    ensures var (_, rest, wk) := Serve(bitSet, q, woken); Served(Bits(bitSet), q, 0, rest, woken, wk)
  {
    var w := q[0];
    HeadApart(q);
    SatisfiedIff(bitSet, w.info);
    LeftIs(bitSet, w.info);
    ServeOthers(bitSet, q[1..], woken, w.tid);
    ServeOthers(Left(bitSet, w.info), q[1..], woken[w.tid := Received(bitSet, w.info)], w.tid);
    hide Satisfied, Left, Received, Bits, Wakes, Distinct;
    assert SetAt(Bits(bitSet), q, 0) == Bits(bitSet);
  }

  /** What became of a thread behind the head is the same seen from the tail of the list. */
  lemma {:induction false} ServedTail(s1: iset<bv32>, s: iset<bv32>, q: seq<Receiver>, k: nat, rest1: seq<Receiver>, rest: seq<Receiver>,
                                      woken1: map<nat, bv32>, woken: map<nat, bv32>, after: map<nat, bv32>)
    requires 0 < k < |q| && q[k].tid != q[0].tid && SetAt(s1, q[1..], k - 1) == SetAt(s, q, k)
    requires Served(s1, q[1..], k - 1, rest1, woken1, after)
    requires rest == rest1 || rest == [q[0]] + rest1
    requires woken1 == woken || (q[0].tid in woken1 && woken1 == woken[q[0].tid := woken1[q[0].tid]])
    ensures Served(s, q, k, rest, woken, after)
  {
    hide Wakes, SetAt;
    assert q[1..][k - 1] == q[k];
  }

  lemma {:induction false} ServeIs(bitSet: bv32, q: seq<Receiver>, woken: map<nat, bv32>, k: nat)
    requires Distinct(q) && k < |q|
    ensures var (_, rest, wk) := Serve(bitSet, q, woken); Served(Bits(bitSet), q, k, rest, woken, wk)
    decreases |q|
  {
    if k == 0 {
      ServeHead(bitSet, q, woken);
    } else {
      var w, u := q[0], q[k];
      HeadApart(q);
      assert u == q[1..][k - 1] && u in q[1..];
      SatisfiedIff(bitSet, w.info);
      LeftIs(bitSet, w.info);
      SetAtTail(Bits(bitSet), q, k);
      hide Satisfied, Left, Received, Bits, Wakes, After, Distinct, SetAt, Served;
      if Satisfied(bitSet, w.info) {
        var wk := woken[w.tid := Received(bitSet, w.info)];
        ServeIs(Left(bitSet, w.info), q[1..], wk, k - 1);
        var (_, rest, after) := Serve(Left(bitSet, w.info), q[1..], wk);
        ServedTail(Bits(Left(bitSet, w.info)), Bits(bitSet), q, k, rest, rest, wk, woken, after);
      } else {
        ServeIs(bitSet, q[1..], woken, k - 1);
        var (_, rest, after) := Serve(bitSet, q[1..], woken);
        ServedTail(Bits(bitSet), Bits(bitSet), q, k, rest, [w] + rest, woken, woken, after);
      }
    }
  }

  lemma {:induction false} ServeSet(bitSet: bv32, q: seq<Receiver>, woken: map<nat, bv32>)
    ensures Bits(Serve(bitSet, q, woken).0) == SetAt(Bits(bitSet), q, |q|)
    decreases |q|
  {
    if q != [] {
      var w := q[0];
      SatisfiedIff(bitSet, w.info);
      LeftIs(bitSet, w.info);
      SetAtTail(Bits(bitSet), q, |q|);
      hide Satisfied, Left, Received, Bits, Wakes, After, SetAt;
      if Satisfied(bitSet, w.info) {
        ServeSet(Left(bitSet, w.info), q[1..], woken[w.tid := Received(bitSet, w.info)]);
      } else {
        ServeSet(bitSet, q[1..], woken);
      }
    } else {
      assert SetAt(Bits(bitSet), q, 0) == Bits(bitSet);
    }
  }

  /**
    A send of some bits adds them to the set and wakes, in list order, exactly the threads whose
    wish the set meets when their turn comes; each gets the bits it shares with the set then.
    A send of no bits fails.
   */
  lemma {:induction false} SendWakes(e: Event, bits: bv32, k: nat)
    requires Inv(e) && k < |e.waiters|
    ensures Send(e, bits).1 == (if bits == 0 then Failed else Ok)
    ensures bits == 0 ==> Send(e, bits).0 == e
    ensures bits != 0 ==>
      var v := Send(e, bits).0;
      Served(Bits(e.bitSet) + Bits(bits), e.waiters, k, v.waiters, e.woken, v.woken)
  {
    assert Distinct(e.waiters);
    BitsOfEither(e.bitSet, bits);
    hide Inv, Bits, Either, Served, Serve;
    ServeIs(Either(e.bitSet, bits), e.waiters, e.woken, k);
  }

  lemma {:induction false} SendSets(e: Event, bits: bv32)
    requires bits != 0
    ensures
      var v := Send(e, bits).0;
      && Bits(v.bitSet) == SetAt(Bits(e.bitSet) + Bits(bits), e.waiters, |e.waiters|)
      && v == e.(bitSet := v.bitSet, waiters := v.waiters, woken := v.woken)
      && (forall w | w in v.waiters :: w in e.waiters)
      && (forall t | t in e.woken && t !in Tids(e.waiters) :: t in v.woken && v.woken[t] == e.woken[t])
  {
    BitsOfEither(e.bitSet, bits);
    hide Bits, Either, Serve, Tids;
    ServeSet(Either(e.bitSet, bits), e.waiters, e.woken);
    forall t | t in e.woken && t !in Tids(e.waiters)
      ensures t in Send(e, bits).0.woken && Send(e, bits).0.woken[t] == e.woken[t]
    {
      ServeOthers(Either(e.bitSet, bits), e.waiters, e.woken, t);
    }
    ServeThins(Either(e.bitSet, bits), e.waiters, e.woken);
    forall w | w in Send(e, bits).0.waiters ensures w in e.waiters {
      ThinnedMembers(Serve(Either(e.bitSet, bits), e.waiters, e.woken).1, e.waiters, w);
    }
  }

  /** With nobody waiting, the set afterwards holds exactly the old and the sent bits. */
  lemma {:induction false} SendAdds(e: Event, bits: bv32)
    requires e.waiters == []
    ensures Bits(Send(e, bits).0.bitSet) == Bits(e.bitSet) + Bits(bits)
  {
    BitsOfEither(e.bitSet, bits);
    ZeroIff(bits);
    hide Bits, Either;
  }

  // ---------------------------------------------------------------------------------
  // Timeouts, resets and whole runs
  // ---------------------------------------------------------------------------------

  lemma {:induction false} TimeoutLeaves(e: Event, i: nat)
    requires Inv(e) && i < |e.waiters| && Enabled(e, TimerStep(i))
    ensures
      var v := Next(e, TimerStep(i));
      && v == e.(waiters := v.waiters, failed := e.failed[e.waiters[i].tid := TimedOut])
      && (forall w :: w in v.waiters <==> w in e.waiters && w.tid != e.waiters[i].tid)
  {
    WithoutFacts(e.flag, e.waiters, i, e.clock);
    hide Without;
  }

  lemma {:induction false} ResetFails(e: Event, t: nat)
    ensures
      var v := Next(e, ResetStep);
      && Bits(v.bitSet) == iset{} && v.waiters == [] && v.woken == e.woken
      && (t in Tids(e.waiters) ==> t in v.failed && v.failed[t] == Failed)
      && (t !in Tids(e.waiters) ==> (t in v.failed <==> t in e.failed) && (t in e.failed ==> v.failed[t] == e.failed[t]))
  {
    FailAllValues(e.failed, e.waiters, t);
    ZeroIff(0);
    hide Bits, FailAll, Tids;
  }

  /** In every reachable state the event set meets the wish of no suspended thread. */
  lemma {:induction false} NobodyWaitsForWhatIsThere(flag: Flag, states: seq<Event>, steps: seq<Step>, n: nat, w: Receiver)
    requires IsRun(states, steps) && states[0] == Init(flag) && n < |states| && w in states[n].waiters
    ensures w.info.conj ==> !(Bits(w.info.bits) <= Bits(states[n].bitSet))
    ensures !w.info.conj && w.info.disj ==> Bits(states[n].bitSet) * Bits(w.info.bits) == iset{}
  {
    NobodyWaitsSatisfied(flag, states, steps, n);
    SatisfiedIff(states[n].bitSet, w.info);
    hide Bits, Satisfied, IsRun;
  }
}
