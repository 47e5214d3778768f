/** The sender-side loss simulator: drop, swap-with-next and delay, with its random draws as an oracle. */
module LossSim {
  import opened Words

  datatype Config = Config(dropPct: real, jitterMsMax: int, oooPct: real)
  {
    predicate Enabled() { dropPct > 0.0 || jitterMsMax > 0 || oooPct > 0.0 }
  }

  /** The random numbers and the clock one submission may consult; the unit draws lie in [0, 1). */
  datatype Draws = Draws(drop: real, ooo: real, now: int, delay: nat, heldDelay: nat)

  datatype Pending<T> = Pending(deadline: int, item: T)

  /** An item is a packet together with the closure that sends it. */
  datatype Sim<T> = Sim(config: Config, held: Option<T>, queue: seq<Pending<T>>)

  predicate Drops(c: Config, d: Draws) { c.dropPct > 0.0 && d.drop * 100.0 < c.dropPct }

  predicate Holds(c: Config, d: Draws) { c.oooPct > 0.0 && d.ooo * 100.0 < c.oooPct }

  function Released<T>(s: Sim<T>, item: T, deadline: int): (Sim<T>, seq<T>)
  {
    if s.config.jitterMsMax <= 0 then (s, [item]) else (s.(queue := s.queue + [Pending(deadline, item)]), [])
  }

  /** The simulator after one submission, and the items it sent at once. */
  function Submitted<T>(s: Sim<T>, item: T, d: Draws): (Sim<T>, seq<T>)
  {
    if !s.config.Enabled() then (s, [item])
    else if Drops(s.config, d) then (s, [])
    else if s.held.Some? then
      var (s1, first) := Released(s.(held := None), item, d.now + d.delay);
      var (s2, second) := Released(s1, s.held.value, d.now + d.heldDelay);
      (s2, first + second)
    else if Holds(s.config, d) then (s.(held := Some(item)), [])
    else Released(s, item, d.now + d.delay)
  }

  class LossSim<T> {
    const config: Config
    var held: Option<T>
    var queue: seq<Pending<T>>

    ghost function Value(): Sim<T>
      reads this
    {
      Sim(config, held, queue)
    }

    constructor (config: Config)
      ensures Value() == Sim(config, None, [])
    {
      this.config, held, queue := config, None, [];
    }

    method Submit(item: T, d: Draws) returns (sent: seq<T>)
      modifies this
      ensures (Value(), sent) == Submitted(old(Value()), item, d)
    {
      if !config.Enabled() {
        return [item];
      }
      if config.dropPct > 0.0 && d.drop * 100.0 < config.dropPct {
        return [];
      }
      if held.Some? {
        var heldItem := held.value;
        held := None;
        var first := EnqueueOrSendInline(item, d.now + d.delay);
        var second := EnqueueOrSendInline(heldItem, d.now + d.heldDelay);
        return first + second;
      }
      if config.oooPct > 0.0 && d.ooo * 100.0 < config.oooPct {
        held := Some(item);
        return [];
      }
      sent := EnqueueOrSendInline(item, d.now + d.delay);
    }

    method EnqueueOrSendInline(item: T, deadline: int) returns (sent: seq<T>)
      modifies this`queue
      ensures (Value(), sent) == Released(old(Value()), item, deadline)
    {
      if config.jitterMsMax <= 0 {
        return [item];
      }
      queue := queue + [Pending(deadline, item)];
      sent := [];
    }
  }

  // ---- the draws ----

  /** Which draws do what, without jitter: a draw below the drop percentage drops the packet; otherwise a
      parked packet goes out behind this one; otherwise a draw below the swap percentage parks it; otherwise
      it goes out. */
  lemma DrawsDecide<T>(s: Sim<T>, item: T, d: Draws)
    requires s.config.jitterMsMax <= 0 && (s.config.dropPct > 0.0 || s.config.oooPct > 0.0)
    ensures var (s', sent) := Submitted(s, item, d);
      var drop := s.config.dropPct > 0.0 && d.drop * 100.0 < s.config.dropPct;
      var park := s.config.oooPct > 0.0 && d.ooo * 100.0 < s.config.oooPct;
      && s'.queue == s.queue && s'.config == s.config
      && (drop ==> sent == [] && s'.held == s.held)
      && (!drop && s.held.Some? ==> sent == [item, s.held.value] && s'.held == None)
      && (!drop && s.held == None && park ==> sent == [] && s'.held == Some(item))
      && (!drop && s.held == None && !park ==> sent == [item] && s'.held == None)
  {
    assert s.held.Some? ==> [item] + [s.held.value] == [item, s.held.value];
  }

  /** For draws below one, a percentage of 100 or more loses every packet and one of 0 none. */
  lemma ExtremePercentages<T>(s: Sim<T>, item: T, d: Draws)
    requires s.config.jitterMsMax <= 0 && s.held == None && 0.0 <= d.drop < 1.0 && 0.0 <= d.ooo < 1.0
    ensures s.config.dropPct >= 100.0 ==> Submitted(s, item, d) == (s, [])
    ensures s.config.dropPct <= 0.0 && s.config.oooPct <= 0.0 ==> Submitted(s, item, d) == (s, [item])
    ensures s.config.dropPct <= 0.0 && s.config.oooPct >= 100.0 ==> Submitted(s, item, d) == (s.(held := Some(item)), [])
  {
  }

  /** With jitter nothing goes out at once: what is not dropped or parked is queued, each packet with its
      own delay. */
  lemma DelaysQueue<T>(s: Sim<T>, item: T, d: Draws)
    requires s.config.jitterMsMax > 0 && !(s.config.dropPct > 0.0 && d.drop * 100.0 < s.config.dropPct)
    ensures var (s', sent) := Submitted(s, item, d);
      var park := s.config.oooPct > 0.0 && d.ooo * 100.0 < s.config.oooPct;
      && sent == []
      && (s.held.Some? ==> s'.held == None && s'.queue == s.queue + [Pending(d.now + d.delay, item)]
                                                           + [Pending(d.now + d.heldDelay, s.held.value)])
      && (s.held == None && park ==> s'.held == Some(item) && s'.queue == s.queue)
      && (s.held == None && !park ==> s'.held == None && s'.queue == s.queue + [Pending(d.now + d.delay, item)])
  {
  }

  // ---- conservation ----

  function QueuedItems<T>(queue: seq<Pending<T>>): (items: seq<T>)
    ensures |items| == |queue|
  {
    seq(|queue|, i requires 0 <= i < |queue| => queue[i].item)
  }

  function HeldItem<T>(held: Option<T>): seq<T>
  {
    if held.Some? then [held.value] else []
  }

  function Copies<T(==)>(items: seq<T>, x: T): nat { multiset(items)[x] }

  lemma CopiesAppend<T>(a: seq<T>, b: seq<T>, x: T)
    ensures Copies(a + b, x) == Copies(a, x) + Copies(b, x)
    ensures Copies([], x) == 0 && forall y :: Copies([y], x) == (if x == y then 1 else 0)
  {
  }

  /** How often an item is still inside the simulator. */
  function Inside<T(==)>(s: Sim<T>, x: T): nat
  {
    Copies(HeldItem(s.held), x) + Copies(QueuedItems(s.queue), x)
  }

  /** Every item that is not dropped is sent, parked, or queued exactly once. */
  lemma SubmissionConserves<T>(s: Sim<T>, item: T, d: Draws, x: T)
    ensures var (s', sent) := Submitted(s, item, d);
      Copies(sent, x) + Inside(s', x)
      == Inside(s, x) + (if x == item && !(s.config.Enabled() && Drops(s.config, d)) then 1 else 0)
  {
    hide Released, Copies, QueuedItems, Drops, Holds;
    CopiesAppend([], [], x);
    if s.held.Some? {
      var freed := s.(held := None);
      var (s1, first) := Released(freed, item, d.now + d.delay);
      var second := Released(s1, s.held.value, d.now + d.heldDelay).1;
      ReleaseConserves(freed, item, d.now + d.delay, x);
      ReleaseConserves(s1, s.held.value, d.now + d.heldDelay, x);
      CopiesAppend(first, second, x);
    } else {
      ReleaseConserves(s, item, d.now + d.delay, x);
    }
  }

  lemma ReleaseConserves<T>(s: Sim<T>, item: T, deadline: int, x: T)
    ensures var (s', sent) := Released(s, item, deadline);
      && s'.config == s.config && s'.held == s.held
      && Copies(sent, x) + Copies(QueuedItems(s'.queue), x) == Copies(QueuedItems(s.queue), x) + (if x == item then 1 else 0)
  {
    hide Copies;
    CopiesAppend(QueuedItems(s.queue), [item], x);
    QueuedAppend(s.queue, Pending(deadline, item));
  }

  lemma QueuedAppend<T>(queue: seq<Pending<T>>, p: Pending<T>)
    ensures QueuedItems(queue + [p]) == QueuedItems(queue) + [p.item]
  {
  }
}
