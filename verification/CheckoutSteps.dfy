/** What an attempt at a checkout does when its turn comes, and how it ends. */
module CheckoutSteps {
  import opened CheckoutLocks
  import OrderSteps

  /** A cart that is empty, or has a line that cannot be bought; a lot won is never refused for what it is. */
  lemma RefusedIs(a: Attempt)
    ensures Refused(a)
       <==> a.goods.Cart? && (a.goods.lines == [] || exists l | l in a.goods.lines :: !OrderSteps.IsBuyable(l))
  {
    if a.goods.Cart? {
      OrderSteps.FirstRefusedIs(a.goods.lines, 0);
    }
  }

  /** Attempt t ends with nothing of it left: no version, no claim. */
  predicate EndsWithoutTrace(attempts: seq<Attempt>, s: System, s': System, t: nat)
    requires t < |attempts|
  {
    && t < |s'.phases| && s'.phases[t].Aborted? && s'.committed == s.committed && s'.log == s.log
    && s'.claims == s.claims - {KeyOf(attempts[t])}
    && (forall r | r in s'.versions :: s'.versions[r].owner != t)
    && forall r | r in s.versions && s.versions[r].owner != t :: r in s'.versions && s'.versions[r] == s.versions[r]
  }

  /** A key taken and no longer in progress is replayed, and the reply names its attempt; a free one is claimed. */
  lemma WaitingDecides(attempts: seq<Attempt>, s: System, t: nat)
    requires t < |attempts| == |s.phases| && s.phases[t].Waiting? && !Blocked(attempts, s, t)
    ensures var key := KeyOf(attempts[t]);
            Act(attempts, s, t)
            == if key in s.claims then s.(phases := s.phases[t := Replayed(s.claims[key])])
               else s.(phases := s.phases[t := Running(0)], claims := s.claims[key := t])
  {}

  /** A refused cart, or a row with too little left, ends the attempt without a trace. */
  lemma RefusalLeavesNoTrace(attempts: seq<Attempt>, s: System, t: nat)
    requires t < |attempts| == |s.phases| && s.phases[t].Running? && !Blocked(attempts, s, t)
    ensures var takes, at := TakesOf(attempts[t]), s.phases[t].at;
            (Refused(attempts[t])
             || (at < |takes| && (takes[at].row !in s.committed || s.committed[takes[at].row] < takes[at].quantity)))
            ==> EndsWithoutTrace(attempts, s, Act(attempts, s, t), t)
  {
    hide TakesOf, Refused;
  }

  /** Otherwise it takes its next row, exactly by its quantity, or having taken all of them commits what it wrote. */
  lemma ProgressWrites(attempts: seq<Attempt>, s: System, t: nat)
    requires t < |attempts| == |s.phases| && s.phases[t].Running? && !Blocked(attempts, s, t)
    requires !Refused(attempts[t])
    ensures var takes, at, s' := TakesOf(attempts[t]), s.phases[t].at, Act(attempts, s, t);
            && (at < |takes| && takes[at].row in s.committed && s.committed[takes[at].row] >= takes[at].quantity ==>
                  var left := s.committed[takes[at].row] - takes[at].quantity;
                  s' == s.(phases := s.phases[t := Running(at + 1)],
                           versions := s.versions[takes[at].row := Version(t, left)]))
            && (at >= |takes| ==>
                  && s'.phases == s.phases[t := Committed] && s'.log == s.log + [t] && s'.claims == s.claims
                  && s'.committed.Keys == s.committed.Keys
                  && (forall r | r in s.committed ::
                        s'.committed[r] == if r in s.versions && s.versions[r].owner == t then s.versions[r].value
                                           else s.committed[r])
                  && s'.versions == map r | r in s.versions && s.versions[r].owner != t :: s.versions[r])
  {
    hide TakesOf, Refused;
  }
}
