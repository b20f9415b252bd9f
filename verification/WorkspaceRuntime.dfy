/** The runtime that serves workspaces while they are engaged. A workspace that is disengaged is cleaned up
    after a delay, unless it has been engaged again by then. */
module WorkspaceRuntime {
  import opened Kube

  type Client = nat

  /** The two maps of the runtime, by workspace. */
  datatype State = State(generations: map<string, nat>, workspaces: map<string, Client>)

  function Current(s: State, name: string): nat {
    if name in s.generations then s.generations[name] else 0
  }

  function Engaged(s: State, name: string, c: Client): State {
    State(s.generations[name := Current(s, name) + 1], s.workspaces[name := c])
  }

  /** The cleanup timer of an engagement with the given generation goes off. */
  function TimedOut(s: State, name: string, generation: nat): State {
    if Current(s, name) != generation then s else State(s.generations - {name}, s.workspaces - {name})
  }

  class Runtime {
    var generations: map<string, nat>
    var workspaces: map<string, Client>

    constructor ()
      ensures View() == State(map[], map[])
    {
      generations, workspaces := map[], map[];
    }

    function View(): State
      reads this
    {
      State(generations, workspaces)
    }

    /** Registers the client of a workspace and returns the generation of the engagement. */
    method Engage(name: string, c: Client) returns (generation: nat)
      modifies this
      ensures View() == Engaged(old(View()), name, c) && generation == Current(View(), name)
    {
      var before := if name in generations then generations[name] else 0;
      generations := generations[name := before + 1];
      generation := generations[name];
      workspaces := workspaces[name := c];
    }

    /** Forgets the workspace, unless the generation is not the current one any more. */
    method Cleanup(name: string, generation: nat) returns (cleaned: bool)
      modifies this
      ensures View() == TimedOut(old(View()), name, generation)
      ensures cleaned <==> Current(old(View()), name) == generation
    {
      var current := if name in generations then generations[name] else 0;
      if current != generation {
        return false;
      }
      generations, workspaces := generations - {name}, workspaces - {name};
      return true;
    }
  }

  // ---------- runs ----------

  /** An engagement, or the timer of the engagement that was the `engagement`-th event. */
  datatype Event = Engage(name: string, client: Client) | Timer(engagement: nat)

  predicate IsEngagement(es: seq<Event>, i: nat) {
    i < |es| && es[i].Engage?
  }

  function After(es: seq<Event>, n: nat): State
    requires n <= |es|
    decreases n, 0
  {
    if n == 0 then State(map[], map[])
    else
      match es[n - 1]
      case Engage(name, c) => Engaged(After(es, n - 1), name, c)
      case Timer(i) =>
        if i < n - 1 && es[i].Engage? then TimedOut(After(es, n - 1), es[i].name, Generation(es, i)) else After(es, n - 1)
  }

  /** The generation that an engagement is given. */
  function Generation(es: seq<Event>, i: nat): nat
    requires IsEngagement(es, i)
    decreases i, 1
  {
    Current(After(es, i), es[i].name) + 1
  }

  /** The timer of engagement `i` has gone off among the first `n` events. */
  predicate Fired(es: seq<Event>, n: nat, i: nat) {
    exists k :: 0 <= k < n && k < |es| && es[k] == Timer(i)
  }

  /** Engagement `i` is the last one of its workspace among the first `n` events. */
  predicate IsLatest(es: seq<Event>, n: nat, i: nat)
    requires IsEngagement(es, i) && n <= |es|
  {
    forall j :: i < j < n && es[j].Engage? ==> es[j].name != es[i].name
  }

  /** The timer that is the `k`-th event goes off for the first time, after its engagement, and after the
      timers of all earlier engagements of the same workspace. */
  predicate OrderedTimer(es: seq<Event>, k: nat)
    requires k < |es| && es[k].Timer?
  {
    var i := es[k].engagement;
    && i < k && es[i].Engage? && !Fired(es, k, i)
    && forall j :: 0 <= j < i && es[j].Engage? && es[j].name == es[i].name ==> Fired(es, k, j)
  }

  predicate InOrder(es: seq<Event>) {
    forall k :: 0 <= k < |es| && es[k].Timer? ==> OrderedTimer(es, k)
  }

  lemma {:induction false} KeysCoincide(es: seq<Event>, n: nat)
    requires n <= |es|
    ensures After(es, n).generations.Keys == After(es, n).workspaces.Keys
  {
    if n > 0 {
      KeysCoincide(es, n - 1);
    }
  }

  /** What holds for an engagement whose timer has not gone off: its workspace is registered, and it has the
      current generation exactly if it is the latest one. */
  ghost predicate Pending(es: seq<Event>, n: nat, i: nat)
    requires IsEngagement(es, i) && i < n <= |es|
  {
    var s, name := After(es, n), es[i].name;
    && name in s.generations && name in s.workspaces && 1 <= Generation(es, i) <= s.generations[name]
    && (Generation(es, i) == s.generations[name] <==> IsLatest(es, n, i))
    && (IsLatest(es, n, i) ==> s.workspaces[name] == es[i].client)
  }

  /** What is registered belongs to an engagement whose timer has not gone off. */
  ghost predicate HasPending(es: seq<Event>, n: nat, name: string)
    requires n <= |es|
  {
    exists i :: 0 <= i < n && es[i].Engage? && es[i].name == name && !Fired(es, n, i)
  }

  ghost predicate AllPending(es: seq<Event>, n: nat)
    requires n <= |es|
  {
    forall i :: 0 <= i < n && es[i].Engage? && !Fired(es, n, i) ==> Pending(es, n, i)
  }

  ghost predicate AllBacked(es: seq<Event>, n: nat)
    requires n <= |es|
  {
    forall name :: name in After(es, n).generations ==> HasPending(es, n, name)
  }

  ghost predicate Inv(es: seq<Event>, n: nat)
    requires n <= |es|
  {
    AllPending(es, n) && AllBacked(es, n)
  }

  lemma FiredLater(es: seq<Event>, n: nat, i: nat)
    requires n < |es|
    ensures Fired(es, n + 1, i) <==> Fired(es, n, i) || es[n] == Timer(i)
  {
  }

  lemma EngageKeepsPending(es: seq<Event>, n: nat, i: nat)
    requires n < |es| && es[n].Engage? && IsEngagement(es, i) && i <= n && (i < n ==> Pending(es, n, i))
    ensures Pending(es, n + 1, i)
  {
    var s, s' := After(es, n), After(es, n + 1);
    assert s' == Engaged(s, es[n].name, es[n].client);
    if i < n && es[n].name == es[i].name {
      assert !IsLatest(es, n + 1, i);
    } else if i < n {
      assert IsLatest(es, n + 1, i) <==> IsLatest(es, n, i);
    } else {
      assert IsLatest(es, n + 1, i) && Generation(es, n) == s'.generations[es[n].name];
    }
  }

  lemma PendingStays(es: seq<Event>, n: nat, name: string)
    requires n < |es| && HasPending(es, n, name)
    requires es[n].Timer? && IsEngagement(es, es[n].engagement) ==> es[es[n].engagement].name != name
    ensures HasPending(es, n + 1, name)
  {
    var i :| 0 <= i < n && es[i].Engage? && es[i].name == name && !Fired(es, n, i);
    FiredLater(es, n, i);
    assert 0 <= i < n + 1 && es[i].Engage? && es[i].name == name && !Fired(es, n + 1, i);
  }

  lemma EngageKeepsInv(es: seq<Event>, n: nat)
    requires n < |es| && es[n].Engage? && Inv(es, n) && InOrder(es)
    ensures Inv(es, n + 1)
  {
    forall i | 0 <= i < n + 1 && es[i].Engage? && !Fired(es, n + 1, i) ensures Pending(es, n + 1, i) {
      FiredLater(es, n, i);
      EngageKeepsPending(es, n, i);
    }
    var gens := After(es, n + 1).generations;
    assert gens == Engaged(After(es, n), es[n].name, es[n].client).generations;
    forall x: string | x in gens ensures HasPending(es, n + 1, x) {
      if x == es[n].name {
        NotFiredYet(es, n);
        assert 0 <= n < n + 1 && es[n].Engage? && es[n].name == x && !Fired(es, n + 1, n);
      } else {
        PendingStays(es, n, x);
      }
    }
  }

  lemma NotFiredYet(es: seq<Event>, n: nat)
    requires InOrder(es) && n < |es|
    ensures !Fired(es, n + 1, n)
  {
    forall k | 0 <= k < n + 1 ensures es[k] != Timer(n) {
      assert es[k].Timer? ==> OrderedTimer(es, k);
    }
  }

  lemma TimerKeepsPending(es: seq<Event>, n: nat, t: nat, i: nat)
    requires n < |es| && es[n] == Timer(t) && t < n && es[t].Engage? && Pending(es, n, t)
    requires i < n && es[i].Engage? && Pending(es, n, i) && (es[i].name == es[t].name ==> t < i)
    ensures Pending(es, n + 1, i)
  {
    var s := After(es, n);
    assert After(es, n + 1) == TimedOut(s, es[t].name, Generation(es, t));
    assert IsLatest(es, n + 1, i) <==> IsLatest(es, n, i);
    if es[i].name == es[t].name {
      assert !IsLatest(es, n, t);
    }
  }

  lemma OnlyLaterOnesRemain(es: seq<Event>, n: nat)
    requires n < |es| && es[n].Timer? && OrderedTimer(es, n)
    ensures forall i :: 0 <= i < n && es[i].Engage? && es[i].name == es[es[n].engagement].name && !Fired(es, n + 1, i) ==>
              es[n].engagement < i
  {
    var t := es[n].engagement;
    forall i | 0 <= i < n && es[i].Engage? && es[i].name == es[t].name && i <= t ensures Fired(es, n + 1, i) {
      FiredLater(es, n, i);
    }
  }

  lemma TimerKeepsBacked(es: seq<Event>, n: nat, t: nat, x: string)
    requires n < |es| && es[n] == Timer(t) && Inv(es, n) && InOrder(es) && x in After(es, n + 1).generations
    ensures HasPending(es, n + 1, x)
  {
    assert OrderedTimer(es, n);
    assert Pending(es, n, t);
    assert After(es, n + 1) == TimedOut(After(es, n), es[t].name, Generation(es, t));
    if x == es[t].name {
      var i := LaterEngagement(es, n, t);
      FiredLater(es, n, i);
      assert 0 <= i < n + 1 && es[i].Engage? && es[i].name == x && !Fired(es, n + 1, i);
    } else {
      PendingStays(es, n, x);
    }
  }

  lemma TimerKeepsPendings(es: seq<Event>, n: nat)
    requires n < |es| && es[n].Timer? && OrderedTimer(es, n) && AllPending(es, n)
    ensures AllPending(es, n + 1)
  {
    var t := es[n].engagement;
    OnlyLaterOnesRemain(es, n);
    assert Pending(es, n, t);
    assert !es[n].Engage?;
    forall i | 0 <= i < n && es[i].Engage? && !Fired(es, n + 1, i) ensures Pending(es, n + 1, i) {
      assert !Fired(es, n, i);
      TimerKeepsPending(es, n, t, i);
    }
  }

  lemma TimerKeepsAllBacked(es: seq<Event>, n: nat)
    requires n < |es| && es[n].Timer? && Inv(es, n) && InOrder(es)
    ensures AllBacked(es, n + 1)
  {
    var gens := After(es, n + 1).generations;
    forall x: string | x in gens ensures HasPending(es, n + 1, x) {
      TimerKeepsBacked(es, n, es[n].engagement, x);
    }
  }

  lemma TimerKeepsInv(es: seq<Event>, n: nat)
    requires n < |es| && es[n].Timer? && Inv(es, n) && InOrder(es)
    ensures Inv(es, n + 1)
  {
    assert OrderedTimer(es, n);
    TimerKeepsPendings(es, n);
    TimerKeepsAllBacked(es, n);
  }

  /** If the timer of an engagement does not clean up, a later engagement is pending. */
  lemma LaterEngagement(es: seq<Event>, n: nat, t: nat) returns (i: nat)
    requires n < |es| && InOrder(es) && es[n] == Timer(t) && IsEngagement(es, t) && t < n && !IsLatest(es, n, t)
    ensures t < i < n && es[i].Engage? && es[i].name == es[t].name && !Fired(es, n, i)
  {
    i :| t < i < n && es[i].Engage? && es[i].name == es[t].name;
    assert OrderedTimer(es, n);
    if Fired(es, n, i) {
      EarlierFired(es, n, i, t);
    }
  }

  /** Where the timer of an engagement has gone off, those of earlier ones have, too. */
  lemma EarlierFired(es: seq<Event>, n: nat, i: nat, j: nat)
    requires InOrder(es) && n <= |es| && Fired(es, n, i) && IsEngagement(es, i) && IsEngagement(es, j) && j < i && es[j].name == es[i].name
    ensures Fired(es, n, j)
  {
    var k :| 0 <= k < n && es[k] == Timer(i);
    assert OrderedTimer(es, k);
    var m :| 0 <= m < k && es[m] == Timer(j);
    assert 0 <= m < n && es[m] == Timer(j);
  }

  lemma InvHolds(es: seq<Event>, n: nat)
    requires InOrder(es) && n <= |es|
    ensures Inv(es, n)
  {
    for i := 0 to n
      invariant Inv(es, i)
    {
      if es[i].Engage? {
        EngageKeepsInv(es, i);
      } else {
        TimerKeepsInv(es, i);
      }
    }
  }

  /** If timers go off in the order of the engagements, a workspace is registered exactly as long as the timer
      of its latest engagement has not gone off, and then with the client of this engagement. So engaging
      again within the delay keeps the client, whatever the timers of earlier engagements do. */
  lemma RegisteredWhileEngaged(es: seq<Event>, n: nat, i: nat)
    requires InOrder(es) && IsEngagement(es, i) && i < n <= |es| && IsLatest(es, n, i)
    ensures es[i].name in After(es, n).workspaces <==> !Fired(es, n, i)
    ensures es[i].name in After(es, n).workspaces ==> After(es, n).workspaces[es[i].name] == es[i].client
  {
    InvHolds(es, n);
    KeysCoincide(es, n);
    var name := es[i].name;
    if !Fired(es, n, i) {
      assert Pending(es, n, i);
    } else {
      forall j | 0 <= j < n && es[j].Engage? && es[j].name == name ensures Fired(es, n, j) {
        if j < i {
          EarlierFired(es, n, i, j);
        }
      }
      assert !HasPending(es, n, name);
    }
  }

  /** A timer that goes off in order cleans up exactly if there was no later engagement. */
  lemma CleansUpIffLatest(es: seq<Event>, k: nat)
    requires InOrder(es) && k < |es| && es[k].Timer?
    ensures
      var i := es[k].engagement;
      i < k && es[i].Engage? && (Current(After(es, k), es[i].name) == Generation(es, i) <==> IsLatest(es, k, i))
  {
    InvHolds(es, k);
    var i := es[k].engagement;
    assert OrderedTimer(es, k);
    assert Pending(es, k, i);
  }

  // ---------- timers in any order ----------

  /** The event is the timer of an earlier engagement of the workspace. */
  predicate TimerOf(es: seq<Event>, k: nat, name: string) {
    k < |es| && es[k].Timer? && es[k].engagement < k && es[es[k].engagement].Engage? && es[es[k].engagement].name == name
  }

  /** The event is a timer that passes the guard and forgets the workspace. */
  predicate CleansUp(es: seq<Event>, k: nat, name: string) {
    TimerOf(es, k, name) && Current(After(es, k), name) == Generation(es, es[k].engagement)
  }

  /** Nothing forgets the workspace from event `a` on, before event `b`. */
  predicate NoCleanup(es: seq<Event>, a: nat, b: nat, name: string) {
    forall k :: a <= k < b ==> !CleansUp(es, k, name)
  }

  /** The number of engagements of the workspace from event `a` on, before event `b`. */
  function Engagements(es: seq<Event>, a: nat, b: nat, name: string): nat
    requires a <= b <= |es|
  {
    if a == b then 0
    else Engagements(es, a, b - 1, name) + if es[b - 1].Engage? && es[b - 1].name == name then 1 else 0
  }

  /** Event `c` is the last cleanup of the workspace before event `k`. */
  predicate LastCleanup(es: seq<Event>, c: nat, k: nat, name: string) {
    c < k && CleansUp(es, c, name) && NoCleanup(es, c + 1, k, name)
  }

  lemma {:induction false} SomeEngagement(es: seq<Event>, a: nat, b: nat, name: string)
    requires a <= b <= |es|
    ensures Engagements(es, a, b, name) == 0 <==> forall j :: a <= j < b && es[j].Engage? ==> es[j].name != name
  {
    if a < b {
      SomeEngagement(es, a, b - 1, name);
    }
  }

  /** Without a cleanup the generation counts the engagements. */
  lemma {:induction false} GenerationsCount(es: seq<Event>, a: nat, b: nat, name: string)
    requires a <= b <= |es| && NoCleanup(es, a, b, name)
    ensures Current(After(es, b), name) == Current(After(es, a), name) + Engagements(es, a, b, name)
  {
    if a < b {
      GenerationsCount(es, a, b - 1, name);
      assert !CleansUp(es, b - 1, name);
    }
  }

  lemma CleanedUp(es: seq<Event>, c: nat, name: string)
    requires CleansUp(es, c, name)
    ensures Current(After(es, c + 1), name) == 0 && name !in After(es, c + 1).workspaces
  {
  }

  lemma {:induction false} FindLastCleanup(es: seq<Event>, a: nat, k: nat, name: string)
    requires a <= k && !NoCleanup(es, a, k, name)
    ensures exists c: nat :: a <= c && LastCleanup(es, c, k, name)
  {
    hide CleansUp;
    if CleansUp(es, k - 1, name) {
      assert LastCleanup(es, k - 1, k, name);
    } else {
      assert !NoCleanup(es, a, k - 1, name);
      FindLastCleanup(es, a, k - 1, name);
      var c: nat :| a <= c && LastCleanup(es, c, k - 1, name);
      assert LastCleanup(es, c, k, name);
    }
  }

  /** The current generation is the number of engagements since the last cleanup. */
  lemma CurrentCountsSinceCleanup(es: seq<Event>, c: nat, k: nat, name: string)
    requires k <= |es| && LastCleanup(es, c, k, name)
    ensures Current(After(es, k), name) == Engagements(es, c + 1, k, name)
  {
    CleanedUp(es, c, name);
    GenerationsCount(es, c + 1, k, name);
  }

  /** Nothing has cleaned up the workspace since the engagement: its timer cleans up exactly if there was no
      later engagement, in whatever order timers go off. */
  lemma CleansUpIffNoneLater(es: seq<Event>, k: nat, name: string)
    requires TimerOf(es, k, name) && NoCleanup(es, es[k].engagement + 1, k, name)
    ensures CleansUp(es, k, name) <==> IsLatest(es, k, es[k].engagement)
  {
    var i := es[k].engagement;
    GenerationsCount(es, i + 1, k, name);
    SomeEngagement(es, i + 1, k, name);
    assert Current(After(es, i + 1), name) == Generation(es, i);
  }

  /** Something has cleaned up the workspace since the engagement: its timer cleans up again exactly if as many
      engagements have come since then as the generation says. */
  lemma CleansUpAgainIff(es: seq<Event>, c: nat, k: nat, name: string)
    requires TimerOf(es, k, name) && es[k].engagement < c && LastCleanup(es, c, k, name)
    ensures CleansUp(es, k, name) <==> Engagements(es, c + 1, k, name) == Generation(es, es[k].engagement)
  {
    CurrentCountsSinceCleanup(es, c, k, name);
  }

  /** A timer forgets the client of a later engagement exactly if something else has cleaned up the workspace
      in between and as many engagements have come since as the generation says. */
  lemma ForgetsLaterClientIff(es: seq<Event>, k: nat, name: string)
    requires TimerOf(es, k, name)
    ensures
      var i := es[k].engagement;
      CleansUp(es, k, name) && !IsLatest(es, k, i) <==>
      exists c: nat :: i < c && LastCleanup(es, c, k, name) && Engagements(es, c + 1, k, name) == Generation(es, i)
  {
    hide CleansUp;
    var i := es[k].engagement;
    if NoCleanup(es, i + 1, k, name) {
      CleansUpIffNoneLater(es, k, name);
    } else {
      FindLastCleanup(es, i + 1, k, name);
      var c: nat :| i + 1 <= c && LastCleanup(es, c, k, name);
      OneLastCleanup(es, c, k, name);
      CleansUpAgainIff(es, c, k, name);
      LatestEngagesNoMore(es, k, c);
    }
  }

  lemma OneLastCleanup(es: seq<Event>, c: nat, k: nat, name: string)
    requires LastCleanup(es, c, k, name)
    ensures forall d: nat :: LastCleanup(es, d, k, name) ==> d == c
  {
    hide CleansUp;
  }

  lemma LatestEngagesNoMore(es: seq<Event>, k: nat, c: nat)
    requires k < |es| && es[k].Timer? && IsEngagement(es, es[k].engagement) && es[k].engagement < c < k
    ensures IsLatest(es, k, es[k].engagement) ==> Engagements(es, c + 1, k, es[es[k].engagement].name) == 0
  {
    SomeEngagement(es, c + 1, k, es[es[k].engagement].name);
  }

  /** No client stays behind: when the timer of the latest engagement has gone off, the workspace is not
      registered any more, in whatever order the other timers went off. */
  lemma NobodyStaysBehind(es: seq<Event>, k: nat, name: string)
    requires TimerOf(es, k, name) && IsLatest(es, k, es[k].engagement)
    ensures name !in After(es, k + 1).workspaces
  {
    var i := es[k].engagement;
    if NoCleanup(es, i + 1, k, name) {
      CleansUpIffNoneLater(es, k, name);
      CleanedUp(es, k, name);
    } else {
      FindLastCleanup(es, i + 1, k, name);
      var c: nat :| i + 1 <= c && LastCleanup(es, c, k, name);
      LatestEngagesNoMore(es, k, c);
      CurrentCountsSinceCleanup(es, c, k, name);
      UnregisteredIsZero(es, k, name);
      assert After(es, k + 1) == After(es, k);
    }
  }

  lemma {:induction false} UnregisteredIsZero(es: seq<Event>, n: nat, name: string)
    requires n <= |es|
    ensures name in After(es, n).workspaces <==> Current(After(es, n), name) > 0
  {
    if n > 0 {
      UnregisteredIsZero(es, n - 1, name);
    }
  }

  /** Generations start again after a cleanup. A timer that goes off out of order can therefore hit a later
      engagement: here the timer of the first one forgets the client of the third one. */
  lemma OutOfOrderTimerForgetsClient(name: string, c: Client)
    ensures
      var es := [Engage(name, c), Engage(name, c), Timer(1), Engage(name, c), Timer(0)];
      && !InOrder(es) && IsLatest(es, 5, 3) && !Fired(es, 5, 3)
      && name in After(es, 4).workspaces && name !in After(es, 5).workspaces
  {
    var es := [Engage(name, c), Engage(name, c), Timer(1), Engage(name, c), Timer(0)];
    assert es[2].Timer? && es[2].engagement == 1 && es[0].Engage? && es[0].name == es[1].name;
    assert !Fired(es, 2, 0);
    assert !OrderedTimer(es, 2);
    assert After(es, 1) == Engaged(State(map[], map[]), name, c);
    assert Generation(es, 0) == 1 && Generation(es, 1) == 2;
    assert After(es, 2).generations[name] == 2;
    assert After(es, 3) == State(map[], map[]);
    assert After(es, 4).generations[name] == 1;
  }
}
