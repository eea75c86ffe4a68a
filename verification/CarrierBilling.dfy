/**
 What carriers are paid over whole runs. Every interleaving, crash and aborted transaction leaves each
 carrier's account down by exactly the costs of the bills committed to it, with one ledger entry each.
 */
module CarrierBilling {
  import opened Options
  import opened Ledger
  import opened Pipeline

  predicate BillsTo(step: Step, c: nat) { step.Bill? && step.commit && step.carrier == c }

  /** Bills committed to carrier c among the first k steps: how many, their costs and their segments. */
  function Bills(steps: seq<Step>, c: nat, k: nat): nat
    requires k <= |steps|
  {
    if k == 0 then 0 else Bills(steps, c, k - 1) + if BillsTo(steps[k - 1], c) then 1 else 0
  }

  function Costs(steps: seq<Step>, c: nat, k: nat): int
    requires k <= |steps|
  {
    if k == 0 then 0 else Costs(steps, c, k - 1) + if BillsTo(steps[k - 1], c) then steps[k - 1].cost else 0
  }

  function Segments(steps: seq<Step>, c: nat, k: nat): nat
    requires k <= |steps|
  {
    if k == 0 then 0 else Segments(steps, c, k - 1) + if BillsTo(steps[k - 1], c) then steps[k - 1].segments else 0
  }

  /** The account after n bills of this much in all, from this opening balance. */
  ghost predicate Paid(a: CarrierAccount, opening: int, n: nat, cost: int, segments: nat) {
    && a.balance == opening - cost && a.spent == cost && a.messages == n && a.segments == segments
    && |a.entries| == n && Replay(opening, a.entries) == a.balance
  }

  /** Only a bill to a carrier touches its account. */
  lemma StepCarriers(cfg: Config, s: System, step: Step, t: System, c: nat)
    requires Enabled(cfg, s, step) && t == Apply(cfg, s, step) && c in s.carriers
    ensures c in t.carriers
    ensures !BillsTo(step, c) ==> t.carriers[c] == s.carriers[c]
    ensures BillsTo(step, c) ==>
      step.cost > 0 && ChargeCarrier(s.carriers[c], step.cost, step.segments) == Some(t.carriers[c])
  {
  }

  lemma ChargePays(opening: int, a: CarrierAccount, n: nat, cost: int, segments: nat, amount: int, more: nat)
    requires Paid(a, opening, n, cost, segments) && amount > 0
    ensures Paid(ChargeCarrier(a, amount, more).value, opening, n + 1, cost + amount, segments + more)
  {
    ChargeIsAccountedFor(opening, a, amount, more);
  }

  ghost predicate CarrierPaid(cfg: Config, s: System, steps: seq<Step>, c: nat, k: nat)
    requires k <= |steps| && c in cfg.carriers
  {
    c in s.carriers
    && Paid(s.carriers[c], cfg.carriers[c], Bills(steps, c, k), Costs(steps, c, k), Segments(steps, c, k))
  }

  lemma StepPays(cfg: Config, s: System, t: System, steps: seq<Step>, c: nat, k: nat)
    requires k < |steps| && c in cfg.carriers && CarrierPaid(cfg, s, steps, c, k)
    requires Enabled(cfg, s, steps[k]) && t == Apply(cfg, s, steps[k])
    ensures CarrierPaid(cfg, t, steps, c, k + 1)
  {
    var step := steps[k];
    StepCarriers(cfg, s, step, t, c);
    if BillsTo(step, c) {
      ChargePays(cfg.carriers[c], s.carriers[c], Bills(steps, c, k), Costs(steps, c, k), Segments(steps, c, k),
                 step.cost, step.segments);
    }
  }

  lemma {:induction false} RunPays(cfg: Config, r: Run, k: nat, c: nat)
    requires IsRun(cfg, r) && k < |r.states| && c in cfg.carriers
    ensures CarrierPaid(cfg, r.states[k], r.steps, c, k)
  {
    if k > 0 {
      RunPays(cfg, r, k - 1, c);
      StepPays(cfg, r.states[k - 1], r.states[k], r.steps, c, k - 1);
    }
  }

  /**
   In every reachable state a carrier's balance is its opening less the costs of the bills committed to
   it, its totals are those costs, their number and their segments, and the ledger has one entry for
   each and replays to the balance.
   */
  lemma CarrierIsAccountedFor(cfg: Config, r: Run, k: nat, c: nat)
    requires IsRun(cfg, r) && k < |r.states| && c in cfg.carriers
    ensures c in r.states[k].carriers
    ensures var a, n, cost := r.states[k].carriers[c], Bills(r.steps, c, k), Costs(r.steps, c, k);
      && a.balance == cfg.carriers[c] - cost && a.spent == cost
      && a.messages == |a.entries| == n && a.segments == Segments(r.steps, c, k)
      && Replay(cfg.carriers[c], a.entries) == a.balance
  {
    RunPays(cfg, r, k, c);
  }
}
