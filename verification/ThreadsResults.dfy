/**
  What each thread operation does to its thread, that it leaves all other threads alone, and the
  turns that threads of the same priority take.
 */
module ThreadsOutcomes {
  import opened Rings
  import opened ReadyIndex
  import opened ThreadLists
  import opened ThreadsSpec
  import opened ThreadsProofs

  // ---------------------------------------------------------------------------------
  // A list without one thread
  // ---------------------------------------------------------------------------------

  /** The other threads of the list, in their order */
  function Others(l: seq<nat>, t: nat): seq<nat> {
    if l == [] then [] else (if l[0] == t then [] else [l[0]]) + Others(l[1..], t)
  }

  lemma {:induction false} OthersMembers(l: seq<nat>, t: nat)
    ensures forall u :: u in Others(l, t) <==> u in l && u != t
  {
    if l != [] {
      OthersMembers(l[1..], t);
      assert l == [l[0]] + l[1..];
    }
  }

  lemma {:induction false} OthersAbsent(l: seq<nat>, t: nat)
    requires t !in l
    ensures Others(l, t) == l
  {
    if l != [] {
      OthersAbsent(l[1..], t);
    }
  }

  lemma {:induction false} OthersConcat(a: seq<nat>, b: seq<nat>, t: nat)
    ensures Others(a + b, t) == Others(a, t) + Others(b, t)
  {
    if a == [] {
      assert a + b == b;
    } else {
      assert (a + b)[1..] == a[1..] + b;
      OthersConcat(a[1..], b, t);
    }
  }

  lemma {:induction false} UnlinkIsOthers(l: seq<nat>, t: nat)
    requires NoDup(l)
    ensures Unlink(l, t) == Others(l, t)
  {
    if l != [] {
      var rest := l[1..];
      assert NoDup(rest) by {
        assert forall i | 0 <= i < |rest| :: rest[i] == l[i + 1];
      }
      if l[0] == t {
        forall u | u in rest ensures u != t {
          var i :| 0 <= i < |rest| && rest[i] == u;
          assert l[i + 1] == u;
        }
        OthersAbsent(rest, t);
        assert Position(l, t) == 0;
      } else {
        UnlinkIsOthers(rest, t);
        var i := Position(rest, t);
        assert Position(l, t) == 1 + i;
        if i < |rest| {
          assert RemoveAt(l, 1 + i) == [l[0]] + RemoveAt(rest, i);
        }
      }
    }
  }

  lemma {:induction false} DetachIs(lists: seq<seq<nat>>, at: seq<int>, t: nat)
    requires Listed(lists, at) && t < |at|
    ensures forall g | 0 <= g < |lists| :: WithoutThread(lists, at, t)[g] == Others(lists[g], t)
  {
    hide Unlink, Others;
    forall g | 0 <= g < |lists| ensures WithoutThread(lists, at, t)[g] == Others(lists[g], t) {
      OnList(lists, at, g, t);
      ListNoDup(lists, at, g);
      if at[t] == g {
        UnlinkIsOthers(lists[g], t);
      } else {
        OthersAbsent(lists[g], t);
      }
    }
  }

  // ---------------------------------------------------------------------------------
  // Where a thread ends up
  // ---------------------------------------------------------------------------------

  /** Nothing about other threads differs, and on every list they stand in the order they had. */
  ghost predicate OnlyMoves(k: Kernel, v: Kernel, t: nat) {
    && v.form == k.form && v.initPrio == k.initPrio && |v.stat| == |k.stat| && |v.lists| == |k.lists| && Shape(k) && Shape(v)
    && (forall u | 0 <= u < |k.stat| && u != t ::
         && v.stat[u] == k.stat[u] && v.prio[u] == k.prio[u] && v.mask[u] == k.mask[u] && v.error[u] == k.error[u]
         && v.pending[u] == k.pending[u] && (u in v.timers <==> u in k.timers))
    && (forall g | 0 <= g < |k.lists| :: Others(v.lists[g], t) == Others(k.lists[g], t))
  }

  /** The thread is the last of list `h`, or on no list if `h` is -1; the others are where they were. */
  ghost predicate Placed(k: Kernel, v: Kernel, t: nat, h: int) {
    && |v.lists| == |k.lists|
    && (forall g | 0 <= g < |k.lists| :: v.lists[g] == Others(k.lists[g], t) + if g == h then [t] else [])
  }

  lemma {:induction false} PlacedMoves(k: Kernel, v: Kernel, t: nat, h: int)
    requires Placed(k, v, t, h)
    ensures forall g | 0 <= g < |k.lists| :: Others(v.lists[g], t) == Others(k.lists[g], t)
    ensures forall g | 0 <= g < |k.lists| :: t in v.lists[g] <==> g == h
  {
    forall g | 0 <= g < |k.lists| ensures Others(v.lists[g], t) == Others(k.lists[g], t) && (t in v.lists[g] <==> g == h) {
      var o, e := Others(k.lists[g], t), if g == h then [t] else [];
      OthersMembers(k.lists[g], t);
      OthersAbsent(o, t);
      OthersConcat(o, e, t);
      assert Others(e, t) == [];
    }
  }

  /** rt_schedule_insert_thread puts a thread that is on no list behind all others of its priority. */
  lemma {:induction false} InsertReadyLast(k: Kernel, t: nat)
    requires Has(k, t) && Listed(k.lists, k.at) && k.at[t] == -1
    ensures
      var v := InsertReady(k, t);
      Placed(k, v, t, k.prio[t]) && v.stat == k.stat[t := Ready] && Shape(v)
      && v == k.(stat := v.stat, lists := v.lists, at := v.at, index := v.index)
  {
    var v := InsertReady(k, t);
    forall g | 0 <= g < |k.lists| ensures Others(k.lists[g], t) == k.lists[g] {
      OnList(k.lists, k.at, g, t);
      OthersAbsent(k.lists[g], t);
    }
    hide Others, Listed, SetIndex;
  }

  lemma {:induction false} DetachedIs(k: Kernel, t: nat)
    requires Has(k, t) && Listed(k.lists, k.at)
    ensures
      var v := Detach(k, t);
      && Placed(k, v, t, -1) && v == k.(lists := v.lists, at := k.at[t := -1]) && Listed(v.lists, v.at)
  {
    DetachIs(k.lists, k.at, t);
    DetachOk(k.lists, k.at, t);
    hide Others, Listed, WithoutThread;
  }

  /** rt_schedule_remove_thread takes the thread off its list. */
  lemma {:induction false} RemoveReadyOff(k: Kernel, t: nat)
    requires Has(k, t) && Listed(k.lists, k.at)
    ensures
      var v := RemoveReady(k, t);
      && Placed(k, v, t, -1) && v == k.(lists := v.lists, at := k.at[t := -1], index := v.index) && Listed(v.lists, v.at)
  {
    DetachedIs(k, t);
    hide Listed, Placed, Detach, ClearIndex;
  }

  /** First off its list, then last of another */
  lemma {:induction false} PlacedTwice(k: Kernel, j: Kernel, v: Kernel, t: nat, h: int)
    requires Placed(k, j, t, -1) && Placed(j, v, t, h)
    ensures Placed(k, v, t, h)
  {
    forall g | 0 <= g < |k.lists| ensures Others(j.lists[g], t) == Others(k.lists[g], t) {
      assert j.lists[g] == Others(k.lists[g], t);
      OthersMembers(k.lists[g], t);
      OthersAbsent(j.lists[g], t);
    }
    hide Others;
  }

  // ---------------------------------------------------------------------------------
  // The operations
  // ---------------------------------------------------------------------------------

  lemma {:induction false} InvFacts(k: Kernel, t: nat)
    requires Inv(k) && t < |k.stat|
    ensures Has(k, t) && Listed(k.lists, k.at) && ThreadOk(k, t)
  {
  }

  /** rt_thread_startup gives the thread its initial priority and leaves it suspended, on the lists it was on. */
  lemma {:induction false} StartupSuspends(k: Kernel, t: nat)
    requires Has(k, t)
    ensures
      var v := Startup(k, t);
      && v.stat[t] == Suspended && v.prio[t] == k.initPrio[t] && v.lists == k.lists && v.timers == k.timers && v.index == k.index
      && OnlyMoves(k, v, t)
  {
    hide MaskOf, Others;
  }

  /** The first section of rt_thread_resume: off its list, timer off; other threads than suspended ones are refused. */
  lemma {:induction false} ResumeBeginTakesOff(k: Kernel, t: nat)
    requires Inv(k) && t < |k.stat| && Has(k, t)
    ensures k.stat[t] != Suspended ==> ResumeBegin(k, t) == k
    ensures OnlyMoves(k, ResumeBegin(k, t), t)
    ensures k.stat[t] == Suspended ==>
      var v := ResumeBegin(k, t);
      && Placed(k, v, t, -1) && v.stat == k.stat && t !in v.timers && v.pending[t] == k.pending[t] + 1 && OnlyMoves(k, v, t)
      && v.prio == k.prio && v.error == k.error && v.index == k.index
  {
    InvFacts(k, t);
    if k.stat[t] == Suspended {
      var k1 := k.(timers := k.timers - {t}, pending := k.pending[t := k.pending[t] + 1]);
      DetachedIs(k1, t);
      var v := Detach(k1, t);
      assert Placed(k, v, t, -1);
      PlacedMoves(k, v, t, -1);
      hide Listed, Placed, Others, Detach, Indexed, MaskOf;
    }
  }

  /** Its second section: READY, behind all others of its priority. */
  lemma {:induction false} ResumeEndReadies(k: Kernel, t: nat)
    requires Inv(k) && t < |k.stat| && Has(k, t) && k.pending[t] > 0
    ensures
      var v := ResumeEnd(k, t);
      && Placed(k, v, t, k.prio[t]) && v.stat[t] == Ready && v.pending[t] == k.pending[t] - 1 && OnlyMoves(k, v, t)
      && v.prio == k.prio && v.error == k.error && v.timers == k.timers
  {
    InvFacts(k, t);
    var k1 := k.(pending := k.pending[t := k.pending[t] - 1]);
    InsertReadyLast(k1, t);
    var v := InsertReady(k1, t);
    assert Placed(k, v, t, k.prio[t]);
    PlacedMoves(k, v, t, k.prio[t]);
    hide Listed, Placed, Others, InsertReady, Indexed, MaskOf;
  }

  /** rt_thread_resume: a suspended thread becomes READY, behind all others of its priority, and its timer is off. */
  lemma {:induction false} ResumeReadies(k: Kernel, t: nat)
    requires Inv(k) && t < |k.stat| && Has(k, t)
    ensures k.stat[t] != Suspended ==> Resume(k, t) == k
    ensures OnlyMoves(k, Resume(k, t), t)
    ensures k.stat[t] == Suspended ==>
      var v := Resume(k, t);
      && Placed(k, v, t, k.prio[t]) && v.stat[t] == Ready && t !in v.timers && OnlyMoves(k, v, t)
      && v.prio == k.prio && v.error == k.error
  {
    hide Inv, Listed, Others, Detach, InsertReady, ThreadOk, Placed;
    InvFacts(k, t);
    if k.stat[t] == Suspended {
      var k1 := k.(timers := k.timers - {t});
      ReadiesFrom(k, k1, t);
    }
  }

  /** Off its list, and READY at the end of the ready list */
  lemma {:induction false} ReadiesFrom(k: Kernel, k1: Kernel, t: nat)
    requires Has(k1, t) && Listed(k1.lists, k1.at) && k1.lists == k.lists
    ensures
      var v := InsertReady(Detach(k1, t), t);
      && Placed(k, v, t, k1.prio[t]) && v.stat == k1.stat[t := Ready] && Shape(v) && |v.lists| == |k.lists|
      && v == k1.(stat := v.stat, lists := v.lists, at := v.at, index := v.index)
      && (forall g | 0 <= g < |k.lists| :: Others(v.lists[g], t) == Others(k.lists[g], t))
  {
    DetachedIs(k1, t);
    var j := Detach(k1, t);
    InsertReadyLast(j, t);
    var v := InsertReady(j, t);
    hide Others, Listed, Detach, InsertReady;
    assert Placed(k, j, t, -1);
    PlacedTwice(k, j, v, t, k1.prio[t]);
    PlacedMoves(k, v, t, k1.prio[t]);
  }

  /** rt_thread_suspend: a READY thread is suspended and on no list; others are refused. */
  lemma {:induction false} SuspendTakesOff(k: Kernel, t: nat)
    requires Inv(k) && t < |k.stat| && Has(k, t)
    ensures k.stat[t] != Ready ==> Suspend(k, t) == k
    ensures OnlyMoves(k, Suspend(k, t), t)
    ensures k.stat[t] == Ready ==>
      var v := Suspend(k, t);
      && Placed(k, v, t, -1) && v.stat == k.stat[t := Suspended] && OnlyMoves(k, v, t)
      && v.prio == k.prio && v.error == k.error && v.timers == k.timers && v.pending == k.pending && v.mask == k.mask
  {
    InvFacts(k, t);
    if k.stat[t] == Ready {
      var k1 := k.(stat := k.stat[t := Suspended]);
      RemoveReadyOff(k1, t);
      var v := RemoveReady(k1, t);
      assert Placed(k, v, t, -1);
      PlacedMoves(k, v, t, -1);
      hide Listed, Placed, Others, RemoveReady, Indexed, MaskOf;
    }
  }

  /**
    A wait: the running thread is suspended with no error, and on the suspend list where it was
    to go; its timer is active exactly if the wait is timed.
   */
  lemma {:induction false} WaitJoins(k: Kernel, t: nat, h: nat, i: nat, timed: bool)
    requires Inv(k) && Enabled(k, WaitStep(t, h, i, timed)) && Has(k, t)
    ensures
      var v := WaitOn(k, t, h, i, timed);
      && v.stat == k.stat[t := Suspended] && v.error == k.error[t := None] && (t in v.timers <==> timed)
      && |v.lists| == |k.lists| && v.lists[h] == k.lists[h][..i] + [t] + k.lists[h][i..]
      && (forall g | 0 <= g < |k.lists| && g != h :: v.lists[g] == Others(k.lists[g], t))
      && v.prio == k.prio && OnlyMoves(k, v, t)
  {
    hide Inv, Others, Listed, Suspend, Indexed, MaskOf, OnlyMoves, ThreadOk, WithThread;
    InvFacts(k, t);
    var k0 := k.(error := k.error[t := None]);
    ErrorKeeps(k, t, None);
    SuspendTakesOff(k0, t);
    SuspendKeeps(k0, t);
    ReadyIsOff(k, t, h);
    Hangs(k, Suspend(k0, t), t, h, i, timed);
  }

  lemma {:induction false} ReadyIsOff(k: Kernel, t: nat, h: nat)
    requires Inv(k) && Has(k, t) && k.stat[t] == Ready && Levels(k.form) <= h < |k.lists|
    ensures t !in k.lists[h] && t !in k.timers
  {
    InvFacts(k, t);
    hide Inv, Listed, Indexed, MaskOf;
    OnList(k.lists, k.at, h, t);
  }

  /** From no list to a suspend list, and its timer */
  lemma {:induction false} Hangs(k: Kernel, j: Kernel, t: nat, h: nat, i: nat, timed: bool)
    requires Has(k, t) && Placed(k, j, t, -1) && OnlyMoves(k.(error := k.error[t := None]), j, t) && Has(j, t)
    requires h < |k.lists| && t !in k.lists[h] && i <= |k.lists[h]|
    ensures j.lists[h] == k.lists[h]
    ensures
      var v := j.(lists := WithThread(j.lists, h, i, t), at := j.at[t := h], timers := if timed then j.timers + {t} else j.timers);
      && |v.lists| == |k.lists| && v.lists[h] == k.lists[h][..i] + [t] + k.lists[h][i..]
      && (forall g | 0 <= g < |k.lists| && g != h :: v.lists[g] == Others(k.lists[g], t))
      && OnlyMoves(k, v, t)
  {
    WaitMoves(k.lists[h], i, t);
    PlacedMoves(k, j, t, -1);
    hide Others, MaskOf;
  }

  lemma {:induction false} InNeither(a: seq<nat>, b: seq<nat>, t: nat)
    requires t !in a + b
    ensures t !in a && t !in b
  {
  }

  lemma {:induction false} JustOne(t: nat)
    ensures Others([t], t) == []
  {
  }

  lemma {:induction false} WaitMoves(l: seq<nat>, i: nat, t: nat)
    requires i <= |l| && t !in l
    ensures Others(l, t) == l && Others(Insert(l, i, t), t) == l && Insert(l, i, t) == l[..i] + [t] + l[i..]
  {
    var a, b := l[..i], l[i..];
    assert l == a + b;
    InNeither(a, b, t);
    JustOne(t);
    hide Others;
    OthersAbsent(l, t);
    OthersConcat(a + [t], b, t);
    OthersConcat(a, [t], t);
    OthersAbsent(a, t);
    OthersAbsent(b, t);
  }

  /** rt_thread_sleep: suspended, on no list, with its timer active. */
  lemma {:induction false} SleepSuspends(k: Kernel, t: nat)
    requires Inv(k) && t < |k.stat| && Has(k, t) && k.stat[t] == Ready
    ensures
      var v := Sleep(k, t);
      && Placed(k, v, t, -1) && v.stat == k.stat[t := Suspended] && v.timers == k.timers + {t} && OnlyMoves(k, v, t)
      && v.prio == k.prio && v.error == k.error
  {
    hide Inv, Others, Suspend, Placed;
    SuspendTakesOff(k, t);
    SuspendKeeps(k, t);
    assert Placed(k, Sleep(k, t), t, -1) by { SameLists(k, Suspend(k, t), Sleep(k, t), t, -1); }
  }

  lemma {:induction false} SameLists(k: Kernel, j: Kernel, v: Kernel, t: nat, h: int)
    requires Placed(k, j, t, h) && v.lists == j.lists
    ensures Placed(k, v, t, h)
  {
  }

  /** rt_thread_timeout: READY with a timeout error, behind all others of its priority. */
  lemma {:induction false} TimeoutReadies(k: Kernel, t: nat)
    requires Inv(k) && t in k.timers && Has(k, t)
    ensures
      var v := Timeout(k, t);
      && Placed(k, v, t, k.prio[t]) && v.stat == k.stat[t := Ready] && v.error == k.error[t := TimedOut]
      && v.timers == k.timers - {t} && OnlyMoves(k, v, t) && v.prio == k.prio
  {
    InvFacts(k, t);
    var k1 := k.(error := k.error[t := TimedOut], timers := k.timers - {t});
    ReadiesFrom(k, k1, t);
    hide Inv, Others, Listed, Detach, InsertReady, Indexed, MaskOf;
  }

  /** A change of priority: the thread has it, and a READY thread is behind all others of that priority. */
  lemma {:induction false} PriorityChanges(k: Kernel, t: nat, p: nat)
    requires Inv(k) && t < |k.stat| && Has(k, t) && p < Levels(k.form)
    ensures
      var v := ChangePriority(k, t, p);
      && v.prio == k.prio[t := p] && v.stat == k.stat && v.timers == k.timers && v.error == k.error && OnlyMoves(k, v, t)
      && (if k.stat[t] == Ready then Placed(k, v, t, p) else v.lists == k.lists)
  {
    if k.stat[t] == Ready {
      InvFacts(k, t);
      hide Inv, Listed, RemoveReady, InsertReady, MaskOf, Others, OnlyMoves, Placed, ThreadOk;
      ReadyPriorityChanges(k, t, p);
    } else {
      hide Inv, Others, Listed, MaskOf;
    }
  }

  lemma {:induction false} ReadyPriorityChanges(k: Kernel, t: nat, p: nat)
    requires Has(k, t) && Listed(k.lists, k.at) && p < Levels(k.form) && k.stat[t] == Ready
    ensures
      var j := RemoveReady(k, t);
      && Has(j, t)
      && var v := InsertReady(j.(prio := j.prio[t := p], mask := j.mask[t := MaskOf(k.form, p)]), t);
         && v.prio == k.prio[t := p] && v.stat == k.stat && v.timers == k.timers && v.error == k.error
         && Placed(k, v, t, p) && OnlyMoves(k, v, t)
  {
    hide Listed, RemoveReady, InsertReady, MaskOf, Others;
    RemoveReadyOff(k, t);
    var j := RemoveReady(k, t);
    var j1 := j.(prio := j.prio[t := p], mask := j.mask[t := MaskOf(k.form, p)]);
    InsertReadyLast(j1, t);
    var v := InsertReady(j1, t);
    assert Placed(k, j1, t, -1);
    PlacedTwice(k, j1, v, t, p);
    PlacedMoves(k, v, t, p);
    assert k.stat[t := Ready] == k.stat;
    hide Placed;
  }

  /**
    rt_thread_yield of a READY thread: it is behind all others of its priority, they and all
    other lists are as they were, and so is everything else.
   */
  lemma {:induction false} YieldGoesLast(k: Kernel, t: nat)
    requires Inv(k) && t < |k.stat| && Has(k, t) && k.stat[t] == Ready
    ensures
      var v := Yield(k, t);
      && Placed(k, v, t, k.prio[t]) && OnlyMoves(k, v, t)
      && (forall g | 0 <= g < |k.lists| && g != k.prio[t] :: v.lists[g] == k.lists[g])
      && v == k.(lists := v.lists, at := v.at)
  {
    InvFacts(k, t);
    var p := k.prio[t];
    OnList(k.lists, k.at, p, t);
    forall g | 0 <= g < |k.lists| && g != p ensures Others(k.lists[g], t) == k.lists[g] {
      OnList(k.lists, k.at, g, t);
      OthersAbsent(k.lists[g], t);
    }
    if |k.lists[p]| > 1 {
      hide Inv, Others, Listed, Detach, OnlyMoves, ThreadOk;
      YieldMoves(k, t);
    } else {
      assert k.lists[p] == [t];
      assert Others([t], t) == [];
      PlacedMoves(k, k, t, p);
      hide Inv, Others, Listed;
    }
  }

  lemma {:induction false} YieldMoves(k: Kernel, t: nat)
    requires Has(k, t) && Listed(k.lists, k.at) && k.at[t] == k.prio[t]
    ensures
      var j, p := Detach(k, t), k.prio[t];
      && |j.lists| == |k.lists|
      && var v := j.(lists := WithThread(j.lists, p, |j.lists[p]|, t), at := j.at[t := p]);
         Placed(k, v, t, p) && OnlyMoves(k, v, t) && v == k.(lists := v.lists, at := v.at)
  {
    hide Others, Listed, Detach;
    DetachedIs(k, t);
    var j, p := Detach(k, t), k.prio[t];
    var v := j.(lists := WithThread(j.lists, p, |j.lists[p]|, t), at := j.at[t := p]);
    assert Insert(j.lists[p], |j.lists[p]|, t) == j.lists[p] + [t];
    assert Placed(k, v, t, p);
    PlacedMoves(k, v, t, p);
    hide WithThread, Placed, Insert;
  }

  /** After a yield another thread is first, if there is another of that priority. */
  lemma {:induction false} YieldGivesWay(k: Kernel, t: nat, u: nat)
    requires Inv(k) && t < |k.stat| && Has(k, t) && k.stat[t] == Ready && u in k.lists[k.prio[t]] && u != t
    ensures
      var l := Yield(k, t).lists;
      |l| == |k.lists| && l[k.prio[t]] != [] && l[k.prio[t]][0] != t && l[k.prio[t]][0] in k.lists[k.prio[t]]
  {
    YieldGoesLast(k, t);
    OthersMembers(k.lists[k.prio[t]], t);
    hide Inv, Yield, Others;
    var o := Others(k.lists[k.prio[t]], t);
    assert u in o;
    assert o[0] in o;
  }

  /** rt_thread_exit: closed, on no ready or suspend list, timer off. */
  lemma {:induction false} ExitLeaves(k: Kernel, t: nat)
    requires Inv(k) && t < |k.stat| && Has(k, t)
    ensures
      var v := Exit(k, t);
      && Placed(k, v, t, -1) && v.stat == k.stat[t := Closed] && v.timers == k.timers - {t} && OnlyMoves(k, v, t)
      && v.prio == k.prio && v.error == k.error
  {
    hide Inv, Listed, Others, RemoveReady, ThreadOk;
    InvFacts(k, t);
    RemoveReadyOff(k, t);
    var v := Exit(k, t);
    assert Placed(k, v, t, -1);
    PlacedMoves(k, v, t, -1);
    hide Placed;
  }

  predicate ByItself(s: Step) {
    s.WaitStep? || s.SleepStep? || s.YieldStep? || s.ExitStep?
  }

  /** Every operation changes one thread: all others keep their state and their order on every list. */
  lemma {:induction false} NextMovesOne(k: Kernel, s: Step)
    requires Inv(k) && Enabled(k, s)
    ensures OnlyMoves(k, Next(k, s), s.t)
  {
    InvFacts(k, s.t);
    hide Inv, OnlyMoves, Startup, ResumeBegin, ResumeEnd, Resume, Suspend, Timeout, ChangePriority, ThreadOk, Shape, Listed;
    if ByItself(s) {
      OwnStepMovesOne(k, s);
    } else {
      match s
      case StartupStep(t) => StartupSuspends(k, t);
      case ResumeBeginStep(t) => ResumeBeginTakesOff(k, t);
      case ResumeEndStep(t) => ResumeEndReadies(k, t);
      case ResumeStep(t) => ResumeReadies(k, t);
      case SuspendStep(t) => SuspendTakesOff(k, t);
      case TimeoutStep(t) => TimeoutReadies(k, t);
      case PriorityStep(t, p) => PriorityChanges(k, t, p);
      case _ =>
    }
  }

  lemma {:induction false} OwnStepMovesOne(k: Kernel, s: Step)
    requires Inv(k) && Enabled(k, s) && Has(k, s.t) && ByItself(s)
    ensures OnlyMoves(k, Next(k, s), s.t)
  {
    hide Inv, OnlyMoves, WaitOn, Sleep, Yield, Exit, ThreadOk, Shape, Listed;
    match s {
      case WaitStep(t, h, i, timed) => WaitJoins(k, t, h, i, timed);
      case SleepStep(t) => SleepSuspends(k, t);
      case YieldStep(t) => YieldGoesLast(k, t);
      case ExitStep(t) => ExitLeaves(k, t);
      case _ =>
    }
  }
}

/** Threads of one priority take turns at the head of their ready list. */
module ThreadsTurns {
  import opened Rings
  import opened ReadyIndex
  import opened ThreadLists
  import opened ThreadsSpec
  import opened ThreadsTheorems
  import opened ThreadsOutcomes

  /** The thread that rt_schedule picks when priority `p` is the best */
  predicate IsHead(k: Kernel, p: nat, t: nat) {
    p < |k.lists| && k.lists[p] != [] && k.lists[p][0] == t
  }

  /** `u` is on the list, and `t` is behind it or not there. */
  predicate Ahead(l: seq<nat>, u: nat, t: nat) {
    Position(l, u) < Position(l, t)
  }

  lemma {:induction false} OthersAhead(l: seq<nat>, x: nat, u: nat, t: nat)
    requires Ahead(l, u, t) && x != u
    ensures Ahead(Others(l, x), u, t)
  {
    var rest := Others(l[1..], x);
    if l[0] == x {
      OthersAhead(l[1..], x, u, t);
      assert Others(l, x) == rest;
    } else {
      assert Others(l, x) == [l[0]] + rest && Others(l, x)[1..] == rest;
      if l[0] != u {
        OthersAhead(l[1..], x, u, t);
      }
    }
  }

  lemma {:induction false} AppendAhead(l: seq<nat>, x: nat, u: nat, t: nat)
    requires Ahead(l, u, t)
    ensures Ahead(l + [x], u, t)
  {
    assert (l + [x])[1..] == l[1..] + [x];
    if l[0] != u {
      AppendAhead(l[1..], x, u, t);
    }
  }

  lemma {:induction false} MemberAhead(l: seq<nat>, u: nat, t: nat)
    requires u in l && t !in l
    ensures Ahead(l, u, t)
  {
  }

  /** A ready list after any step: as it was, or without the thread of the step, or with that thread last. */
  ghost predicate Turned(l: seq<nat>, after: seq<nat>, x: nat) {
    after == l || after == Others(l, x) || after == Others(l, x) + [x]
  }

  lemma {:induction false} PlacedTurns(k: Kernel, v: Kernel, x: nat, h: int, p: nat)
    requires Placed(k, v, x, h) && p < |k.lists|
    ensures Turned(k.lists[p], v.lists[p], x)
  {
    assert Others(k.lists[p], x) + [] == Others(k.lists[p], x);
  }

  lemma {:induction false} ReadyListTurns(k: Kernel, s: Step, p: nat)
    requires Inv(k) && Enabled(k, s) && p < Levels(k.form)
    ensures p < |k.lists| && p < |Next(k, s).lists| && Turned(k.lists[p], Next(k, s).lists[p], s.t)
  {
    InvFacts(k, s.t);
    assert p < |k.lists|;
    hide Inv, OnlyMoves, Placed, Turned, Startup, ResumeBegin, ResumeEnd, Resume, Suspend, Timeout, ChangePriority, ThreadOk, Listed;
    assert Turned(k.lists[p], k.lists[p], s.t) by { SameTurns(k.lists[p], s.t); }
    if ByItself(s) {
      OwnStepTurns(k, s, p);
    } else {
      var v := Next(k, s);
      match s
      case StartupStep(t) => StartupSuspends(k, t);
      case ResumeBeginStep(t) =>
        ResumeBeginTakesOff(k, t);
        if k.stat[t] == Suspended { PlacedTurns(k, v, t, -1, p); }
      case ResumeEndStep(t) =>
        ResumeEndReadies(k, t);
        PlacedTurns(k, v, t, k.prio[t], p);
      case ResumeStep(t) =>
        ResumeReadies(k, t);
        if k.stat[t] == Suspended { PlacedTurns(k, v, t, k.prio[t], p); }
      case SuspendStep(t) =>
        SuspendTakesOff(k, t);
        if k.stat[t] == Ready { PlacedTurns(k, v, t, -1, p); }
      case TimeoutStep(t) =>
        TimeoutReadies(k, t);
        PlacedTurns(k, v, t, k.prio[t], p);
      case PriorityStep(t, q) =>
        PriorityChanges(k, t, q);
        if k.stat[t] == Ready { PlacedTurns(k, v, t, q, p); }
      case _ =>
    }
  }

  lemma {:induction false} SameTurns(l: seq<nat>, x: nat)
    ensures Turned(l, l, x)
  {
  }

  lemma {:induction false} OwnStepTurns(k: Kernel, s: Step, p: nat)
    requires Inv(k) && Enabled(k, s) && Has(k, s.t) && ByItself(s) && p < Levels(k.form) && p < |k.lists|
    ensures p < |Next(k, s).lists| && Turned(k.lists[p], Next(k, s).lists[p], s.t)
  {
    hide Inv, OnlyMoves, WaitOn, Sleep, Yield, Exit, ThreadOk, Listed;
    var v := Next(k, s);
    match s {
      case WaitStep(t, h, i, timed) => WaitJoins(k, t, h, i, timed);
      case SleepStep(t) =>
        SleepSuspends(k, t);
        PlacedTurns(k, v, t, -1, p);
      case YieldStep(t) =>
        YieldGoesLast(k, t);
        PlacedTurns(k, v, t, k.prio[t], p);
      case ExitStep(t) =>
        ExitLeaves(k, t);
        PlacedTurns(k, v, t, -1, p);
      case _ =>
    }
  }

  /** The thread gives its place up by itself: it yields, or its priority is set anew. */
  predicate GivesUp(s: Step, u: nat) {
    s == YieldStep(u) || (s.PriorityStep? && s.t == u)
  }

  ghost predicate ReadyAt(k: Kernel, u: nat, p: nat) {
    u < |k.stat| && u < |k.prio| && k.stat[u] == Ready && k.prio[u] == p
  }

  /** A thread that is READY before and after a step of its own that is neither of these has not moved. */
  lemma {:induction false} StaysPut(k: Kernel, s: Step, u: nat, p: nat)
    requires Inv(k) && Enabled(k, s) && s.t == u && !GivesUp(s, u) && ReadyAt(k, u, p) && ReadyAt(Next(k, s), u, p)
    ensures Next(k, s).lists == k.lists
  {
    InvFacts(k, u);
    hide Inv, Listed, WithThread, WithoutThread, SetIndex, ClearIndex, MaskOf;
  }

  lemma {:induction false} StepAhead(k: Kernel, s: Step, p: nat, u: nat, t: nat)
    requires Inv(k) && Enabled(k, s) && p < Levels(k.form) && !GivesUp(s, u)
    requires ReadyAt(k, u, p) && ReadyAt(Next(k, s), u, p) && p < |k.lists| && Ahead(k.lists[p], u, t)
    ensures p < |Next(k, s).lists| && Ahead(Next(k, s).lists[p], u, t)
  {
    hide Inv, Enabled, Next, ReadyAt, GivesUp, Ahead;
    if s.t == u {
      StaysPut(k, s, u, p);
    } else {
      ReadyListTurns(k, s, p);
      hide Others;
      var l := k.lists[p];
      OthersAhead(l, s.t, u, t);
      AppendAhead(Others(l, s.t), s.t, u, t);
    }
  }

  /** A thread that stops being the head has gone behind every other that stays. */
  lemma {:induction false} StepFromHead(k: Kernel, s: Step, p: nat, u: nat, t: nat)
    requires Inv(k) && Enabled(k, s) && p < Levels(k.form) && !GivesUp(s, u) && u != t
    requires ReadyAt(k, u, p) && ReadyAt(Next(k, s), u, p) && IsHead(k, p, t) && u in k.lists[p]
    ensures p < |Next(k, s).lists| && (IsHead(Next(k, s), p, t) || Ahead(Next(k, s).lists[p], u, t))
  {
    hide Inv, Enabled, Next, ReadyAt, GivesUp, Ahead;
    if s.t == u {
      StaysPut(k, s, u, p);
    } else {
      ReadyListTurns(k, s, p);
      var l, o := k.lists[p], Others(k.lists[p], s.t);
      OthersMembers(l, s.t);
      if s.t == t {
        MemberAhead(o, u, t);
        AppendAhead(o, t, u, t);
      } else {
        assert o[0] == t;
      }
    }
  }

  /** At state `n`, `t` is the head or behind `u`. */
  ghost predicate HeadOrBehind(k: Kernel, p: nat, u: nat, t: nat) {
    p < |k.lists| && (IsHead(k, p, t) || Ahead(k.lists[p], u, t))
  }

  lemma {:induction false} ReadyIsListed(k: Kernel, u: nat, p: nat)
    requires Inv(k) && ReadyAt(k, u, p)
    ensures p < Levels(k.form) && p < |k.lists| && u in k.lists[p]
  {
    PlaceFacts(k, u);
    hide Listed, Indexed, MaskOf;
  }

  ghost predicate StaysReady(states: seq<Kernel>, i: nat, n: nat, u: nat, p: nat) {
    n < |states| && forall k | i <= k <= n :: ReadyAt(states[k], u, p)
  }

  ghost predicate KeepsPlace(steps: seq<Step>, i: nat, n: nat, u: nat) {
    n <= |steps| && forall k | i <= k < n :: !GivesUp(steps[k], u)
  }

  lemma {:induction false} LastStep(states: seq<Kernel>, steps: seq<Step>, i: nat, n: nat, u: nat, p: nat)
    requires IsRun(states, steps) && Boots(states[0]) && i < n < |states|
    requires StaysReady(states, i, n, u, p) && KeepsPlace(steps, i, n, u)
    ensures StaysReady(states, i, n - 1, u, p) && KeepsPlace(steps, i, n - 1, u)
    ensures n - 1 < |steps| && Inv(states[n - 1]) && Enabled(states[n - 1], steps[n - 1]) && states[n] == Next(states[n - 1], steps[n - 1])
    ensures ReadyAt(states[n - 1], u, p) && ReadyAt(states[n], u, p) && !GivesUp(steps[n - 1], u)
  {
    hide Inv, IsRun, Boots, Next, Enabled, Exclusive, ReadyAt, GivesUp;
    RunKeepsInv(states, steps, n - 1);
    StepAt(states, steps, n);
  }

  lemma {:induction false} StepBehind(k: Kernel, s: Step, p: nat, u: nat, t: nat)
    requires Inv(k) && Enabled(k, s) && !GivesUp(s, u) && u != t && ReadyAt(k, u, p) && ReadyAt(Next(k, s), u, p)
    requires HeadOrBehind(k, p, u, t)
    ensures HeadOrBehind(Next(k, s), p, u, t)
    ensures p < |k.lists| && p < |Next(k, s).lists| && (Ahead(k.lists[p], u, t) ==> Ahead(Next(k, s).lists[p], u, t))
  {
    hide Inv, Enabled, Next, ReadyAt, GivesUp, Ahead, IsHead;
    ReadyIsListed(k, u, p);
    if Ahead(k.lists[p], u, t) {
      StepAhead(k, s, p, u, t);
    } else {
      StepFromHead(k, s, p, u, t);
    }
  }

  lemma {:induction false} InsideLists(k: Kernel, p: nat, u: nat, t: nat)
    requires HeadOrBehind(k, p, u, t)
    ensures p < |k.lists|
  {
  }

  lemma {:induction false} StaysBehind(states: seq<Kernel>, steps: seq<Step>, i: nat, n: nat, p: nat, t: nat, u: nat)
    requires IsRun(states, steps) && Boots(states[0]) && i <= n < |states| && u != t
    requires StaysReady(states, i, n, u, p) && KeepsPlace(steps, i, n, u)
    requires HeadOrBehind(states[i], p, u, t)
    ensures HeadOrBehind(states[n], p, u, t)
    ensures p < |states[i].lists| && p < |states[n].lists|
    ensures Ahead(states[i].lists[p], u, t) ==> Ahead(states[n].lists[p], u, t)
  {
    hide Inv, IsRun, Boots, Next, Enabled, ReadyAt, GivesUp, Ahead, IsHead, HeadOrBehind, StaysReady, KeepsPlace;
    InsideLists(states[i], p, u, t);
    if i < n {
      LastStep(states, steps, i, n, u, p);
      StaysBehind(states, steps, i, n - 1, p, t, u);
      StepBehind(states[n - 1], steps[n - 1], p, u, t);
    }
  }

  /**
    Between two turns of a thread at the head of its ready list, every other thread that stays
    READY at that priority has had its turn, unless it gave its place up before.
   */
  lemma {:induction false} EveryoneHasATurn(states: seq<Kernel>, steps: seq<Step>, i: nat, m: nat, j: nat, p: nat, t: nat, u: nat)
    requires IsRun(states, steps) && Boots(states[0]) && i < m < j < |states| && u != t
    requires IsHead(states[i], p, t) && !IsHead(states[m], p, t) && IsHead(states[j], p, t)
    requires forall k | i <= k <= j :: ReadyAt(states[k], u, p)
    requires forall k | i <= k < j && GivesUp(steps[k], u) :: IsHead(states[k], p, u)
    ensures exists k | i < k < j :: IsHead(states[k], p, u)
  {
    assert |states| == |steps| + 1;
    hide IsRun, Boots, ReadyAt, GivesUp;
    if forall k | i < k < j :: !IsHead(states[k], p, u) {
      forall k | i <= k < j ensures !GivesUp(steps[k], u) {
        assert !IsHead(states[k], p, u);
      }
      assert StaysReady(states, i, m, u, p) && KeepsPlace(steps, i, m, u) && StaysReady(states, m, j, u, p) && KeepsPlace(steps, m, j, u);
      StaysBehind(states, steps, i, m, p, t, u);
      StaysBehind(states, steps, m, j, p, t, u);
    }
  }
}
