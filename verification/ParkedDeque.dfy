/** The deque of a worker that parks, as the two protocols see it. */
module ParkedDeque {
  // `The` follows one deque access by access; `Elastic` knows of a deque only whether it holds a closure, and lets
  // nobody but a mugger change that of a parked worker. What `Elastic` takes for granted is proved here of `The`.

  import Elastic
  import The

  /** The worker x owns the deque d. */
  predicate Shows(d: The.State, x: Elastic.Worker) {
    x.full <==> d.closures != []
  }

  /** The exception handler has looked at the sleep request and decides to park. */
  predicate Parks(d: The.State) {
    d.owner == The.Undecided(The.ExcReset) && d.elastic == The.SleepRequested && d.head <= d.tail
  }

  /** A worker that parks in the handler has its deque full, as `Elastic.Park` asks for. */
  lemma HandlerParksWithWork(limit: nat, split: bool, r: The.Run, s: Elastic.State, w: nat)
    requires The.Safe(limit, split) && The.RunFrom(limit, split, r) && Parks(The.Last(r))
    requires w < |s.ws| && s.ws[w].pc.Run? && s.ws[w].es.SleepRequested? && Shows(The.Last(r), s.ws[w])
    ensures The.Enabled(The.Last(r), The.Go) && Elastic.Enabled(s, Elastic.Handler(w))
    ensures var d, s' := The.Apply(The.Last(r), The.Go), Elastic.Apply(s, Elastic.Handler(w));
            && d.owner == The.ParkClosure && d.elastic == The.ToSleep
            && s'.ws[w].es.ToSleep? && Shows(d, s'.ws[w]) && Elastic.Enabled(s', Elastic.Park(w))
  {
    The.RunKeepsInv(limit, split, r);
    The.DequeOfClosures(limit, split, r);
  }

  /** While it sleeps, whatever thieves take meanwhile, the two agree that the deque holds a closure, until a mugger
      takes the whole deque; so a woken worker finds its deque empty exactly if it was mugged. */
  lemma ParkedDequesAgree(limit: nat, split: bool, r: The.Run, full: seq<bool>, t: Elastic.Trace, i: nat, j: nat,
                          w: nat)
    requires The.Safe(limit, split) && The.RunFrom(limit, split, r)
    requires The.Last(r).owner == The.Parked && The.Last(r).lock == The.Free
    requires Elastic.SleepsFrom(full, t, i, j, w)
    ensures Shows(The.Last(r), t.states[j].ws[w]) <==> forall k | i < k < j :: !Elastic.MuggedAt(t, w, k)
  {
    The.ParkedKeepsItsClosure(limit, split, r);
    Elastic.FullUnlessMugged(full, t, i, j, w);
  }
}
