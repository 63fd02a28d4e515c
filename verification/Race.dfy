/** The raced connect and the sockets it must not leak (`_open_upstream`). Each
    attempt opens at most one connection, named after its task. */
module Race {
  import opened Common

  datatype Result = Connected(rtt: real) | Failed

  datatype Completion = Completion(task: nat, result: Result)

  /** What one wait returns, in the order the tasks are inspected; empty for a timeout. */
  type Round = seq<Completion>

  /** How a wait ends; the caller may be cancelled while it waits. */
  datatype Wait = Woken(round: Round) | Cancelled

  datatype Outcome = Won(task: nat) | TimedOut | AllFailed | Stopped

  function Tasks(round: Round): set<nat>
  {
    set i | 0 <= i < |round| :: round[i].task
  }

  function Successes(round: Round): seq<Completion>
  {
    if round == [] then []
    else (if round[0].result.Connected? then [round[0]] else []) + Successes(round[1..])
  }

  predicate AllConnected(s: seq<Completion>)
  {
    forall i :: 0 <= i < |s| ==> s[i].result.Connected?
  }

  /** The head of a stable sort by round-trip time. */
  function Fastest(s: seq<Completion>): (c: Completion)
    requires s != [] && AllConnected(s)
    ensures c in s
    ensures forall i :: 0 <= i < |s| ==> c.result.Connected? && c.result.rtt <= s[i].result.rtt
  {
    if |s| == 1 then s[0]
    else
      var rest := Fastest(s[1..]);
      if s[0].result.rtt <= rest.result.rtt then s[0] else rest
  }

  lemma {:induction false} SuccessesConnected(round: Round)
    ensures AllConnected(Successes(round))
    ensures forall c :: c in Successes(round) <==> c in round && c.result.Connected?
  {
    if round != [] { SuccessesConnected(round[1..]); }
  }

  /** Every task completes at most once, while it is still pending. */
  predicate Possible(pending: set<nat>, waits: seq<Wait>)
    decreases |waits|
  {
    waits == [] || waits[0].Cancelled? ||
    (Tasks(waits[0].round) <= pending
     && (forall i, j :: 0 <= i < j < |waits[0].round| ==> waits[0].round[i].task != waits[0].round[j].task)
     && Possible(pending - Tasks(waits[0].round), waits[1..]))
  }

  /** Who should win: the fastest of the first wait that brings a success. */
  function Verdict(pending: set<nat>, waits: seq<Wait>): Outcome
    decreases |waits|
  {
    if pending == {} then AllFailed
    else if waits == [] then TimedOut
    else if waits[0].Cancelled? then Stopped
    else if waits[0].round == [] then TimedOut
    else if Successes(waits[0].round) != [] then
      SuccessesConnected(waits[0].round);
      Won(Fastest(Successes(waits[0].round)).task)
    else Verdict(pending - Tasks(waits[0].round), waits[1..])
  }

  /** Connections open now, and how often each was opened and closed. */
  class Network {
    var open: set<nat>
    ghost var opens: multiset<nat>
    ghost var closes: multiset<nat>

    constructor ()
      ensures open == {} && opens == multiset{} && closes == multiset{}
    {
      open, opens, closes := {}, multiset{}, multiset{};
    }

    method Open(c: nat)
      requires c !in open
      modifies this
      ensures open == old(open) + {c} && opens == old(opens) + multiset{c} && closes == old(closes)
    {
      open := open + {c};
      opens := opens + multiset{c};
    }

    method Close(c: nat)
      requires c in open
      modifies this
      ensures open == old(open) - {c} && opens == old(opens) && closes == old(closes) + multiset{c}
    {
      open := open - {c};
      closes := closes + multiset{c};
    }
  }

  lemma InsertOnce(s: set<nat>, x: nat)
    requires x !in s
    ensures multiset(s + {x}) == multiset(s) + multiset{x}
  {
  }

  /** The connections of a wait's successes come into being. */
  method Arrive(round: Round, net: Network) returns (successes: seq<Completion>)
    requires forall i, j :: 0 <= i < j < |round| ==> round[i].task != round[j].task
    requires Tasks(round) !! net.open
    modifies net
    ensures successes == Successes(round)
    ensures net.open == old(net.open) + Tasks(successes)
    ensures net.opens == old(net.opens) + multiset(Tasks(successes)) && net.closes == old(net.closes)
  {
    successes := [];
    assert round[0..] == round;
    ghost var born: set<nat> := {};
    for i := 0 to |round|
      invariant Successes(round) == successes + Successes(round[i..])
      invariant born == Tasks(successes) && forall j :: i <= j < |round| ==> round[j].task !in born
      invariant net.open == old(net.open) + born
      invariant net.opens == old(net.opens) + multiset(born) && net.closes == old(net.closes)
    {
      var c := round[i];
      assert round[i..][0] == c && round[i..][1..] == round[i + 1..];
      assert c.task in Tasks(round);
      if c.result.Connected? {
        TasksAppend(successes, c);
        InsertOnce(born, c.task);
        net.Open(c.task);
        successes := successes + [c];
        born := born + {c.task};
      }
    }
    assert round[|round|..] == [];
  }

  lemma TasksAppend(s: seq<Completion>, c: Completion)
    ensures Tasks(s + [c]) == Tasks(s) + {c.task}
  {
    var t := s + [c];
    assert t[|s|] == c;
    forall x | x in Tasks(s) ensures x in Tasks(t) {
      var i :| 0 <= i < |s| && s[i].task == x;
      assert t[i].task == x;
    }
  }

  method CloseAll(conns: set<nat>, net: Network)
    requires conns <= net.open
    modifies net
    ensures net.open == old(net.open) - conns
    ensures net.closes == old(net.closes) + multiset(conns) && net.opens == old(net.opens)
  {
    var todo := conns;
    while todo != {}
      invariant todo <= conns && net.open == old(net.open) - (conns - todo)
      invariant net.closes == old(net.closes) + multiset(conns - todo) && net.opens == old(net.opens)
      decreases todo
    {
      var c :| c in todo;
      assert conns - (todo - {c}) == (conns - todo) + {c};
      assert multiset(conns - (todo - {c})) == multiset(conns - todo) + multiset{c};
      net.Close(c);
      todo := todo - {c};
    }
    assert conns - todo == conns;
  }

  /** Cancels what is still pending; `late` tasks connect before the cancellation
      reaches them and are closed. */
  method CancelPending(pending: set<nat>, late: set<nat>, net: Network)
    requires pending !! net.open
    modifies net
    ensures net.open == old(net.open)
    ensures net.opens == old(net.opens) + multiset(pending * late)
    ensures net.closes == old(net.closes) + multiset(pending * late)
  {
    var todo := pending;
    while todo != {}
      invariant todo <= pending && net.open == old(net.open)
      invariant net.opens == old(net.opens) + multiset((pending - todo) * late)
      invariant net.closes == old(net.closes) + multiset((pending - todo) * late)
      decreases todo
    {
      var t :| t in todo;
      var done := pending - todo;
      assert pending - (todo - {t}) == done + {t};
      if t in late {
        net.Open(t);
        net.Close(t);
        assert multiset((done + {t}) * late) == multiset(done * late) + multiset{t};
      } else {
        assert (done + {t}) * late == done * late;
      }
      todo := todo - {t};
    }
    assert pending - todo == pending;
  }

  function All(n: nat): (s: set<nat>)
    ensures forall i: nat :: i in s <==> i < n
  {
    if n == 0 then {} else All(n - 1) + {n - 1}
  }

  /** Everything opened since was closed exactly once, except the winner. */
  ghost predicate Settled(born: multiset<nat>, shut: multiset<nat>, outcome: Outcome, n: nat)
  {
    && born == shut + (if outcome.Won? then multiset{outcome.task} else multiset{})
    && (forall c :: born[c] <= 1 && (born[c] == 1 ==> c < n))
  }

  /** One completed wait: keeps the fastest success, closes the others. */
  method TakeRound(round: Round, net: Network) returns (winner: Option<nat>, ghost born: set<nat>)
    requires forall i, j :: 0 <= i < j < |round| ==> round[i].task != round[j].task
    requires Tasks(round) !! net.open
    modifies net
    ensures AllConnected(Successes(round))
    ensures winner == if Successes(round) == [] then None else Some(Fastest(Successes(round)).task)
    ensures born <= Tasks(round) && (if winner.Some? then winner.value in born else born == {})
    ensures net.open == old(net.open) + (if winner.Some? then {winner.value} else {})
    ensures net.opens == old(net.opens) + multiset(born)
    ensures net.closes == old(net.closes) + multiset(if winner.Some? then born - {winner.value} else born)
  {
    var successes := Arrive(round, net);
    SuccessTasks(round);
    SuccessesConnected(round);
    born := Tasks(successes);
    winner := None;
    if successes != [] {
      var best := Fastest(successes);
      InTasks(successes, best);
      CloseAll(Tasks(successes) - {best.task}, net);
      winner := Some(best.task);
    }
  }

  /** Waits until somebody connects, nobody is left, time is up, or the caller is cancelled. */
  method AwaitWinner(all: set<nat>, waits: seq<Wait>, net: Network)
    returns (outcome: Outcome, pending: set<nat>, ghost born: set<nat>)
    requires Possible(all, waits) && all !! net.open
    modifies net
    ensures outcome == Verdict(all, waits)
    ensures pending <= all && born <= all && pending !! born
    ensures if outcome.Won? then outcome.task in born else born == {}
    ensures net.open == old(net.open) + (if outcome.Won? then {outcome.task} else {})
    ensures net.opens == old(net.opens) + multiset(born)
    ensures net.closes == old(net.closes) + multiset(if outcome.Won? then born - {outcome.task} else {})
  {
    pending := all;
    var i := 0;
    while pending != {}
      invariant 0 <= i <= |waits| && pending <= all
      invariant Possible(pending, waits[i..]) && Verdict(all, waits) == Verdict(pending, waits[i..])
      invariant net.open == old(net.open) && net.opens == old(net.opens) && net.closes == old(net.closes)
      decreases |waits| - i
    {
      if i == |waits| { return TimedOut, pending, {}; }
      if waits[i].Cancelled? { return Stopped, pending, {}; }
      var done := waits[i].round;
      if done == [] { return TimedOut, pending, {}; }
      assert waits[i..][0] == waits[i] && waits[i..][1..] == waits[i + 1..];
      i := i + 1;
      var winner;
      winner, born := TakeRound(done, net);
      pending := pending - Tasks(done);
      if winner.Some? { return Won(winner.value), pending, born; }
    }
    return AllFailed, pending, {};
  }

  /** For every order of completions, and whenever the caller is cancelled while it
      waits, the race ends with exactly the winner open, or raises with nothing open;
      every other connection it opened was closed once. */
  method RaceConnections(n: nat, waits: seq<Wait>, late: set<nat>, net: Network) returns (outcome: Outcome)
    requires Possible(All(n), waits) && All(n) !! net.open
    modifies net
    ensures outcome == Verdict(All(n), waits)
    ensures net.open == old(net.open) + (if outcome.Won? then {outcome.task} else {})
    ensures old(net.opens) <= net.opens && old(net.closes) <= net.closes
    ensures Settled(net.opens - old(net.opens), net.closes - old(net.closes), outcome, n)
  {
    var pending;
    ghost var born;
    outcome, pending, born := AwaitWinner(All(n), waits, net);
    CancelPending(pending, late, net);
    CountOnce(born, pending * late, if outcome.Won? then Some(outcome.task) else None, All(n));
  }

  lemma CountOnce(born: set<nat>, cleaned: set<nat>, winner: Option<nat>, all: set<nat>)
    requires born !! cleaned && born <= all && cleaned <= all
    requires if winner.Some? then winner.value in born else born == {}
    ensures var opens := multiset(born) + multiset(cleaned);
            var shut := multiset(if winner.Some? then born - {winner.value} else {}) + multiset(cleaned);
      && (forall c :: opens[c] <= 1 && (opens[c] == 1 ==> c in all))
      && opens == shut + (if winner.Some? then multiset{winner.value} else multiset{})
  {
  }

  lemma {:induction false} SuccessTasks(round: Round)
    ensures Tasks(Successes(round)) <= Tasks(round)
  {
    SuccessesConnected(round);
    forall x | x in Tasks(Successes(round)) ensures x in Tasks(round) {
      var i :| 0 <= i < |Successes(round)| && Successes(round)[i].task == x;
      assert Successes(round)[i] in round;
      var j :| 0 <= j < |round| && round[j] == Successes(round)[i];
    }
  }

  lemma InTasks(s: seq<Completion>, c: Completion)
    requires c in s
    ensures c.task in Tasks(s)
  {
  }
}
