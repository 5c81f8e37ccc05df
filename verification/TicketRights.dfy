/**
 Whom a ticket belongs to over whole runs: its terms are those of its submission as long as it is stored, only the
 beneficiary named there can cancel it, cancelling and expiry pay the call value to that beneficiary, and no
 ticket that is alive is ever reaped.
 */
module TicketRights {
  import opened Words
  import opened Ledger
  import opened Journals
  import opened Submit
  import opened SubmitMeaning
  import opened Retryables
  import opened RetrySettlement
  import opened Lifecycle

  // ------------------------------------------------------------------ the terms of a ticket

  ghost predicate SameTerms(t: Ticket, t': Ticket) {
    t.from == t'.from && t.to == t'.to && t.callvalue == t'.callvalue && t.beneficiary == t'.beneficiary
    && t.calldata == t'.calldata
  }

  /** The ticket, if it is stored, has the terms of `t`. */
  ghost predicate HasTerms(w: World, id: TicketId, t: Ticket) {
    id in w.tickets ==> SameTerms(w.tickets[id], t)
  }

  ghost predicate TermsHold(m: Machine, id: TicketId, t: Ticket) {
    && id in m.used && HasTerms(m.w, id, t)
    && (m.phase.Retry? ==> HasTerms(m.phase.entry, id, t))
  }

  lemma {:induction false} ReapKeepsTerms(w: World, now: U64, id: TicketId, t: Ticket)
    requires HasTerms(w, id, t)
    ensures HasTerms(Reap(w, now), id, t)
  {
  }

  lemma {:induction false} SubmitKeepsTerms(clock: nat, m: Machine, s: Step, m': Machine, id: TicketId, t: Ticket)
    requires s.DoSubmit? && Next(clock, m, s, m') && TermsHold(m, id, t)
    ensures TermsHold(m', id, t)
  {
    var call := Redirect(s.call, s.filter);
    var x, p := AmountsOf(call, s.env), PartiesOf(call, s.env, s.from, s.ticket);
    var stage := SubmitStage(m.w.balances, x, p, GasAcceptable(call, s.env));
    assert TicketStored(m.w, call, s.env, s.from, s.ticket, x, stage, s.filter.Some?, s.after);
    assert s.ticket != id;
  }

  lemma {:induction false} StepKeepsTerms(clock: nat, m: Machine, s: Step, m': Machine, id: TicketId, t: Ticket)
    requires Next(clock, m, s, m') && TermsHold(m, id, t)
    ensures TermsHold(m', id, t)
  {
    if s.DoSubmit? {
      SubmitKeepsTerms(clock, m, s, m', id, t);
    } else if s.DoStartBlock? {
      ReapKeepsTerms(m.w, s.now, id, t);
      ReapKeepsTerms(Reap(m.w, s.now), s.now, id, t);
    }
  }

  lemma {:induction false} RunKeepsTerms(clock: nat, ms: seq<Machine>, steps: seq<Step>, i: nat, j: nat, id: TicketId, t: Ticket)
    requires Run(clock, ms, steps) && i <= j < |ms| && TermsHold(ms[i], id, t)
    ensures TermsHold(ms[j], id, t)
  {
    if i < j {
      RunKeepsTerms(clock, ms, steps, i, j - 1, id, t);
      StepKeepsTerms(clock, ms[j - 1], steps[j - 1], ms[j], id, t);
    }
  }

  /** The beneficiary that a submission names; a filtered one is redirected. */
  function Named(s: Step): Address
    requires s.DoSubmit?
  {
    if s.filter.Some? then s.filter.value else s.call.beneficiary
  }

  function NamedTerms(s: Step): Ticket
    requires s.DoSubmit?
  {
    Ticket(0, s.from, s.call.retryTo, s.call.retryValue, Named(s), 0, 0, s.call.retryData)
  }

  lemma {:induction false} SubmitSetsTerms(clock: nat, m: Machine, s: Step, m': Machine)
    requires Inv(m) && s.DoSubmit? && Next(clock, m, s, m')
    ensures TermsHold(m', s.ticket, NamedTerms(s))
  {
    assert SubmitSpec(m.w, s.call, s.env, s.from, s.ticket, s.filter, s.outcome, s.after);
    StoredTicket(m.w, s.call, s.env, s.from, s.ticket, s.filter, s.outcome, s.after);
  }

  /** As long as a ticket is stored it has the terms of its submission. */
  lemma {:induction false} TermsOfSubmission(clock: nat, ms: seq<Machine>, steps: seq<Step>, i: nat, j: nat)
    requires Run(clock, ms, steps) && i < j < |ms| && steps[i].DoSubmit? && steps[i].ticket in ms[j].w.tickets
    ensures var s, t := steps[i], ms[j].w.tickets[steps[i].ticket];
            && t.from == s.from && t.to == s.call.retryTo && t.callvalue == s.call.retryValue
            && t.calldata == s.call.retryData && t.beneficiary == Named(s)
  {
    RunKeeps(clock, ms, steps, i);
    assert Next(clock, ms[i], steps[i], ms[i + 1]);
    SubmitSetsTerms(clock, ms[i], steps[i], ms[i + 1]);
    RunKeepsTerms(clock, ms, steps, i + 1, j, steps[i].ticket, NamedTerms(steps[i]));
  }

  // ------------------------------------------------------------------ cancelling

  /** Inside a transaction a ticket that is open and not running can be cancelled by its named beneficiary, and by nobody else. */
  lemma {:induction false} OnlyBeneficiaryCancels(clock: nat, ms: seq<Machine>, steps: seq<Step>, i: nat, j: nat, env: Env, caller: Address)
    requires Run(clock, ms, steps) && i < j < |ms| && steps[i].DoSubmit? && ms[j].phase != Idle && EnvOk(env, ms[j].now)
    requires OpenLive(ms[j].w, steps[i].ticket, ms[j].now, env.arbosVersion) && ms[j].Current() != Some(steps[i].ticket)
    ensures (exists m' :: Next(clock, ms[j], DoCancel(env, caller, steps[i].ticket), m')) <==> caller == Named(steps[i])
  {
    TermsOfSubmission(clock, ms, steps, i, j);
    var m, id := ms[j], steps[i].ticket;
    if caller == Named(steps[i]) {
      assert Next(clock, m, DoCancel(env, caller, id), m.(w := Cancel(m.w, id)));
    }
  }

  lemma {:induction false} DeletePays(w: World, id: TicketId)
    requires id in w.tickets && w.tickets[id].callvalue <= Get(w.balances, Escrow(id)) && w.tickets[id].beneficiary.Account?
    ensures var to := w.tickets[id].beneficiary;
            Get(Delete(w, id).balances, to) >= Get(w.balances, to) + w.tickets[id].callvalue
    ensures forall a: Address :: a.Account? ==> Get(Delete(w, id).balances, a) >= Get(w.balances, a)
  {
  }

  lemma {:induction false} CancelStepPays(clock: nat, m: Machine, s: Step, m': Machine)
    requires Inv(m) && s.DoCancel? && Next(clock, m, s, m')
    ensures s.ticket in m.w.tickets && s.ticket !in m'.w.tickets && m.w.tickets[s.ticket].beneficiary == s.caller
    ensures s.caller.Account? ==> Get(m'.w.balances, s.caller) >= Get(m.w.balances, s.caller) + m.w.tickets[s.ticket].callvalue
  {
    if s.caller.Account? {
      DeletePays(m.w, s.ticket);
    }
  }

  /** Submit, then cancel: the named beneficiary receives the call value. */
  lemma {:induction false} CancelPays(clock: nat, ms: seq<Machine>, steps: seq<Step>, i: nat, j: nat)
    requires Run(clock, ms, steps) && i < j < |steps| && steps[i].DoSubmit? && Named(steps[i]).Account?
    requires steps[j].DoCancel? && steps[j].ticket == steps[i].ticket
    ensures steps[j].caller == Named(steps[i]) && steps[i].ticket !in ms[j + 1].w.tickets
    ensures Get(ms[j + 1].w.balances, Named(steps[i])) >= Get(ms[j].w.balances, Named(steps[i])) + steps[i].call.retryValue
  {
    RunKeeps(clock, ms, steps, j);
    assert Next(clock, ms[j], steps[j], ms[j + 1]);
    CancelStepPays(clock, ms[j], steps[j], ms[j + 1]);
    TermsOfSubmission(clock, ms, steps, i, j);
  }

  // ------------------------------------------------------------------ expiry

  /** Reaping spares what is alive, and keeps it alive. */
  lemma {:induction false} ReapSparesLive(w: World, id: TicketId, now: U64, version: U64)
    requires Live(w, id, now, version)
    ensures Live(Reap(w, now), id, now, version)
  {
    if w.queue != [] && w.queue[0] == id && w.tickets[id].timeout < now {
      var t := w.tickets[id];
      assert t.windowsLeft > 0;
      MulSplit(t.windowsLeft - 1, 1, LIFETIME);
    }
  }

  /** No block start removes a ticket that is alive at its time. */
  lemma {:induction false} LiveSurvivesStart(clock: nat, m: Machine, s: Step, m': Machine, id: TicketId, version: U64)
    requires s.DoStartBlock? && Next(clock, m, s, m') && Live(m.w, id, s.now, version)
    ensures Live(m'.w, id, s.now, version)
  {
    ReapSparesLive(m.w, id, s.now, version);
    ReapSparesLive(Reap(m.w, s.now), id, s.now, version);
  }

  lemma {:induction false} ReapPays(w: World, id: TicketId, now: U64)
    requires id in w.tickets && w.tickets[id].callvalue <= Get(w.balances, Escrow(id)) && w.tickets[id].beneficiary.Account?
    ensures forall a: Address :: a.Account? ==> Get(Reap(w, now).balances, a) >= Get(w.balances, a)
    ensures id !in Reap(w, now).tickets ==>
              && w.tickets[id].timeout < now && w.tickets[id].windowsLeft == 0
              && var to := w.tickets[id].beneficiary;
              Get(Reap(w, now).balances, to) >= Get(w.balances, to) + w.tickets[id].callvalue
  {
  }

  lemma {:induction false} StartStepPays(clock: nat, m: Machine, s: Step, m': Machine, id: TicketId)
    requires Inv(m) && s.DoStartBlock? && Next(clock, m, s, m') && id in m.w.tickets && id !in m'.w.tickets
    requires m.w.tickets[id].beneficiary.Account?
    ensures var to := m.w.tickets[id].beneficiary;
            Get(m'.w.balances, to) >= Get(m.w.balances, to) + m.w.tickets[id].callvalue
  {
    var w1 := Reap(m.w, s.now);
    ReapKeeps(m.w, s.now, m.used, m.scheduled);
    ReapPays(m.w, id, s.now);
    if id in w1.tickets {
      ReapKeepsTerms(m.w, s.now, id, m.w.tickets[id]);
      ReapPays(w1, id, s.now);
    } else {
      AccountsKept(w1, s.now);
    }
  }

  /** An expired ticket that a block start reaps pays its call value to the beneficiary named in its submission. */
  lemma {:induction false} ExpiryPays(clock: nat, ms: seq<Machine>, steps: seq<Step>, i: nat, j: nat)
    requires Run(clock, ms, steps) && i < j < |steps| && steps[i].DoSubmit? && Named(steps[i]).Account?
    requires steps[j].DoStartBlock? && steps[i].ticket in ms[j].w.tickets && steps[i].ticket !in ms[j + 1].w.tickets
    ensures Get(ms[j + 1].w.balances, Named(steps[i])) >= Get(ms[j].w.balances, Named(steps[i])) + steps[i].call.retryValue
  {
    TermsOfSubmission(clock, ms, steps, i, j);
    RunKeeps(clock, ms, steps, j);
    assert Next(clock, ms[j], steps[j], ms[j + 1]);
    StartStepPays(clock, ms[j], steps[j], ms[j + 1], steps[i].ticket);
  }

  lemma {:induction false} AccountsKept(w: World, now: U64)
    ensures forall a: Address :: a.Account? ==> Get(Reap(w, now).balances, a) >= Get(w.balances, a)
  {
  }

  /** A retry that succeeds removes its ticket; what is left in escrow goes to its beneficiary. */
  lemma {:induction false} SuccessReleases(clock: nat, m: Machine, s: Step, m': Machine)
    requires Inv(m) && s.DoEndRetry? && s.success && Next(clock, m, s, m')
    ensures var id, w := m.phase.tx.ticket, Settled(m, true, s.gas, s.env);
            && id in m.w.tickets && id !in m'.w.tickets
            && Released(w.balances, id, m.w.tickets[id].beneficiary, m'.w.balances)
  {
  }
}
