/** The polling loop started by `init()`: every 500 ms the interval callback
    tests `numTries-- > 0`; while the test passes it tries to install the
    wrapper and stops the interval on success, and the first time it fails it
    stops the interval without trying.  Time is a sequence of ticks; at each
    tick the registry is whatever the host has put there by then. */
module Poller {
  import opened Intercept

  /** The interval's closure state: the counter and whether `clearInterval`
      has been called. */
  datatype Poller = Poller(numTries: int, stopped: bool)

  const MaxTries: nat := 10

  /** The poller `init()` starts: ten tries, running. */
  function Start(): (r: Poller)
    ensures r.numTries == 10 && !r.stopped
  {
    Poller(MaxTries, false)
  }

  /** The effect of one interval callback. */
  datatype TickResult = TickResult(poller: Poller, globals: map<string, Fn>, attempted: bool, installed: bool)

  /** One run of the interval callback; a stopped interval never fires. */
  function Tick(p: Poller, globals: map<string, Fn>, name: string): (r: TickResult)
    ensures p.stopped ==> r == TickResult(p, globals, false, false)
    ensures !p.stopped ==> r.poller.numTries == p.numTries - 1
    ensures r.attempted <==> !p.stopped && p.numTries > 0
    ensures r.installed <==> r.attempted && name in globals
    ensures r.poller.stopped <==> p.stopped || r.installed || p.numTries <= 0
    ensures r.attempted ==> r.globals == Install(globals, name).0
    ensures !r.attempted ==> r.globals == globals
  {
    if p.stopped then
      TickResult(p, globals, false, false)
    else if p.numTries > 0 then
      var (after, found) := Install(globals, name);
      TickResult(Poller(p.numTries - 1, found), after, true, found)
    else
      TickResult(Poller(p.numTries - 1, true), globals, false, false)
  }

  /** The outcome of a run of ticks: the final state, how many installation
      attempts were made and how many succeeded. */
  datatype Trace = Trace(poller: Poller, attempts: nat, installs: nat)

  /** Runs one tick per registry snapshot in `hosts`. */
  function Run(p: Poller, name: string, hosts: seq<map<string, Fn>>): Trace
    decreases |hosts|
  {
    if |hosts| == 0 then
      Trace(p, 0, 0)
    else
      var t := Tick(p, hosts[0], name);
      var rest := Run(t.poller, name, hosts[1..]);
      Trace(rest.poller,
            rest.attempts + (if t.attempted then 1 else 0),
            rest.installs + (if t.installed then 1 else 0))
  }

  /** Once stopped, the poller does nothing more. */
  lemma {:induction false} StoppedStaysIdle(p: Poller, name: string, hosts: seq<map<string, Fn>>)
    requires p.stopped
    ensures Run(p, name, hosts) == Trace(p, 0, 0)
    decreases |hosts|
  {
    if |hosts| > 0 {
      StoppedStaysIdle(p, name, hosts[1..]);
    }
  }

  /** A poller makes at most `numTries` attempts however many ticks it sees,
      and installs at most once. */
  lemma {:induction false} AttemptsBounded(p: Poller, name: string, hosts: seq<map<string, Fn>>)
    ensures Run(p, name, hosts).attempts <= (if p.stopped || p.numTries < 0 then 0 else p.numTries)
    ensures Run(p, name, hosts).installs <= 1
    ensures Run(p, name, hosts).installs <= Run(p, name, hosts).attempts
    decreases |hosts|
  {
    if |hosts| > 0 {
      var t := Tick(p, hosts[0], name);
      AttemptsBounded(t.poller, name, hosts[1..]);
      if t.installed {
        StoppedStaysIdle(t.poller, name, hosts[1..]);
      }
    }
  }

  /** While the function is absent and attempts remain, every tick is an
      attempt and the poller keeps going. */
  lemma {:induction false} MissesKeepPolling(n: int, name: string, hosts: seq<map<string, Fn>>)
    requires |hosts| <= n
    requires forall j :: 0 <= j < |hosts| ==> name !in hosts[j]
    ensures Run(Poller(n, false), name, hosts) == Trace(Poller(n - |hosts|, false), |hosts|, 0)
    decreases |hosts|
  {
    if |hosts| > 0 {
      MissesKeepPolling(n - 1, name, hosts[1..]);
    }
  }

  /** If the function first appears at tick `k` while attempts remain, the
      poller installs the wrapper at that tick, after exactly `k + 1`
      attempts, and stops: later ticks change nothing. */
  lemma {:induction false} FoundStopsPolling(n: int, name: string, hosts: seq<map<string, Fn>>, k: nat)
    requires k < n && k < |hosts|
    requires name in hosts[k]
    requires forall j :: 0 <= j < k ==> name !in hosts[j]
    ensures Run(Poller(n, false), name, hosts) == Trace(Poller(n - k - 1, true), k + 1, 1)
    decreases k
  {
    var t := Tick(Poller(n, false), hosts[0], name);
    if k == 0 {
      StoppedStaysIdle(t.poller, name, hosts[1..]);
    } else {
      FoundStopsPolling(n - 1, name, hosts[1..], k - 1);
    }
  }

  /** If the function never appears, the poller spends all its attempts and
      the next tick stops it without an attempt; nothing is installed. */
  lemma {:induction false} NeverFoundStops(n: nat, name: string, hosts: seq<map<string, Fn>>)
    requires |hosts| > n
    requires forall j :: 0 <= j < |hosts| ==> name !in hosts[j]
    ensures Run(Poller(n, false), name, hosts) == Trace(Poller(-1, true), n, 0)
    decreases n
  {
    var t := Tick(Poller(n, false), hosts[0], name);
    if n == 0 {
      StoppedStaysIdle(t.poller, name, hosts[1..]);
    } else {
      NeverFoundStops(n - 1, name, hosts[1..]);
    }
  }

  /** From the start state: a function that appears at tick `k < 10` is
      intercepted at exactly that tick; one that never appears is given up on
      at the eleventh tick, after ten attempts, with nothing installed. */
  lemma StartBehaviour(name: string, hosts: seq<map<string, Fn>>)
    ensures forall k :: 0 <= k < MaxTries && k < |hosts| && name in hosts[k]
                        && (forall j :: 0 <= j < k ==> name !in hosts[j]) ==>
              && !Run(Start(), name, hosts[..k]).poller.stopped
              && Run(Start(), name, hosts[..k + 1]) == Trace(Poller(MaxTries - k - 1, true), k + 1, 1)
              && Run(Start(), name, hosts) == Run(Start(), name, hosts[..k + 1])
    ensures |hosts| > MaxTries && (forall j :: 0 <= j < |hosts| ==> name !in hosts[j]) ==>
              && !Run(Start(), name, hosts[..MaxTries]).poller.stopped
              && Run(Start(), name, hosts[..MaxTries]).attempts == MaxTries
              && Run(Start(), name, hosts[..MaxTries + 1]) == Trace(Poller(-1, true), MaxTries, 0)
              && Run(Start(), name, hosts) == Trace(Poller(-1, true), MaxTries, 0)
  {
    forall k | 0 <= k < MaxTries && k < |hosts| && name in hosts[k]
               && (forall j :: 0 <= j < k ==> name !in hosts[j])
      ensures && !Run(Start(), name, hosts[..k]).poller.stopped
              && Run(Start(), name, hosts[..k + 1]) == Trace(Poller(MaxTries - k - 1, true), k + 1, 1)
              && Run(Start(), name, hosts) == Run(Start(), name, hosts[..k + 1])
    {
      MissesKeepPolling(MaxTries, name, hosts[..k]);
      FoundStopsPolling(MaxTries, name, hosts[..k + 1], k);
      FoundStopsPolling(MaxTries, name, hosts, k);
    }
    if |hosts| > MaxTries && (forall j :: 0 <= j < |hosts| ==> name !in hosts[j]) {
      MissesKeepPolling(MaxTries, name, hosts[..MaxTries]);
      NeverFoundStops(MaxTries, name, hosts[..MaxTries + 1]);
      NeverFoundStops(MaxTries, name, hosts);
    }
  }
}
