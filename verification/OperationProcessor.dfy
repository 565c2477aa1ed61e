/** The operation processor of one proposal (operation_processor.go): an object that updates
    its pool, fee and duplication maps in place.  Its ghost trace ties every reachable state to
    a run of the proposal's state machine, so what is proved of runs holds of the object. */
module OperationProcessors {
  import opened Basics
  import opened Sequences
  import opened Documents
  import opened Inventory
  import opened Fees
  import opened Ledger
  import opened Proposal
  import opened Interleaving
  import opened Processors

  datatype DuplicationType = DuplicationTypeSender | DuplicationTypeCurrency

  datatype Processor =
    | Creating(create: CreateDocumentsProcessor)
    | Updating(update: UpdateDocumentsProcessor)
    | Signing(sign: SignDocumentsProcessor)
  {
    function Op(): Operation {
      match this
      case Creating(c) => c.op
      case Updating(u) => u.op
      case Signing(s) => s.op
    }

    ghost predicate Holds(plan: Plan)
      reads if Creating? then {create, create.dinv} else if Updating? then {update} else {sign}
    {
      match this
      case Creating(c) => c.op.CreateDocuments? && c.Holds(plan)
      case Updating(u) => u.op.UpdateDocuments? && u.Holds(plan)
      case Signing(s) => s.op.SignDocuments? && s.Holds(plan)
    }

    ghost function Footprint(): set<object>
      reads if Creating? then {create} else {}
    {
      match this
      case Creating(c) => {c, c.dinv}
      case Updating(u) => {u}
      case Signing(s) => {s}
    }
  }

  class OperationProcessor {
    const cp: CurrencyPool
    var pool: Pool
    var fee: FeePool
    var duplicated: map<string, DuplicationType>

    ghost const start: Pool
    ghost var trace: seq<Event>

    ghost function View(): Machine
      reads this
    {
      After(start, cp, trace)
    }

    ghost predicate Valid()
      reads this
    {
      View().cp == cp && View().pool == pool && View().fee == fee && View().claimed == duplicated.Keys
    }

    /** `New`: a proposal starts with no fee and no claimed sender. */
    constructor New(cp: CurrencyPool, pool: Pool)
      ensures Valid() && trace == [] && start == pool && this.cp == cp
      ensures this.pool == pool && fee == map[] && duplicated == map[]
    {
      this.cp, this.pool, this.start := cp, pool, pool;
      fee, duplicated, trace := map[], map[], [];
    }

    /** Adds up the fees of the amounts, then sets the states. */
    method SetState(sts: seq<State>)
      modifies this`pool, this`fee
      ensures pool == SetAll(old(pool), sts)
      ensures fee == AddFees(old(fee), sts)
    {
      for i := 0 to |sts|
        invariant fee == AddFees(old(fee), sts[..i]) && pool == old(pool)
      {
        assert sts[..i + 1][..i] == sts[..i];
        if sts[i].AmountState? {
          var t := sts[i];
          if t.fee > 0 {
            var f := 0;
            if t.cid in fee {
              f := fee[t.cid];
            }
            fee := fee[t.cid := f + t.fee];
          }
        }
      }
      assert sts[..|sts|] == sts;
      pool := SetAll(pool, sts);
    }

    /** Claims the sender, unless it is claimed already. */
    method CheckDuplication(op: Operation) returns (r: Result<()>)
      modifies this`duplicated
      ensures r.Err? <==> op.sender != "" && op.sender in old(duplicated)
      ensures r.Err? ==> r.error == DuplicatedSender && duplicated == old(duplicated)
      ensures r.Ok? ==>
                duplicated == if op.sender != "" then old(duplicated)[op.sender := DuplicationTypeSender] else old(duplicated)
    {
      var did := op.sender;
      if |did| > 0 {
        if did in duplicated {
          return Err(DuplicatedSender);
        }
        duplicated := duplicated[did := DuplicationTypeSender];
      }
      return Ok(());
    }

    /** A new processor of the operation's kind, preprocessed. */
    method Prepare(op: Operation) returns (prepared: Result<Processor>)
      ensures prepared.Ok? ==>
                && fresh(prepared.value.Footprint()) && prepared.value.Op() == op
                && Ledger.PreProcess(pool, cp, op).Ok? && prepared.value.Holds(Ledger.PreProcess(pool, cp, op).value)
      ensures prepared.Err? ==> Ledger.PreProcess(pool, cp, op) == Err(prepared.error)
    {
      hide Ledger.PreProcess;
      match op {
        case CreateDocuments(_, _, _) =>
          var c := new CreateDocumentsProcessor(cp, op);
          var pr := c.PreProcess(pool);
          return if pr.Ok? then Ok(Creating(c)) else Err(pr.error);
        case UpdateDocuments(_, _, _) =>
          var u := new UpdateDocumentsProcessor(cp, op);
          var pr := u.PreProcess(pool);
          return if pr.Ok? then Ok(Updating(u)) else Err(pr.error);
        case SignDocuments(_, _, _) =>
          var s := new SignDocumentsProcessor(cp, op);
          var pr := s.PreProcess(pool);
          return if pr.Ok? then Ok(Signing(s)) else Err(pr.error);
      }
    }

    /** A step of the machine; on rejection nothing changes, on acceptance only the sender is claimed. */
    method PreProcess(op: Operation) returns (r: Result<Processor>)
      requires Valid()
      modifies this`duplicated, this`trace
      ensures Valid() && trace == old(trace) + [PreStep(op)]
      ensures r.Ok? <==> Accepts(old(View()), op)
      ensures r.Ok? ==> fresh(r.value.Footprint()) && r.value.Op() == op
      ensures r.Ok? ==> op.sender in View().pending && r.value.Holds(View().pending[op.sender])
      ensures r.Ok? && op.sender != "" ==> duplicated == old(duplicated)[op.sender := DuplicationTypeSender]
      ensures r.Err? ==> duplicated == old(duplicated) && View() == old(View())
      ensures r.Err? && Ledger.PreProcess(pool, cp, op).Ok? ==> r.error == DuplicatedSender
      ensures r.Err? && Ledger.PreProcess(pool, cp, op).Err? ==> r == Err(Ledger.PreProcess(pool, cp, op).error)
    {
      hide Ledger.PreProcess, Run, PoolAfter, FeesWith, Processable, NewMachine;
      ghost var before := trace;
      RunStep(NewMachine(start, cp), before, PreStep(op));
      var prepared := Prepare(op);
      trace := before + [PreStep(op)];
      if prepared.Err? {
        return prepared;
      }
      var claimed := CheckDuplication(op);
      if claimed.Err? {
        return Err(claimed.error);
      }
      return prepared;
    }

    /** A step of the machine: one write of the processor's states, or an error and no write. */
    method Process(p: Processor) returns (r: Result<()>)
      requires Valid() && p.Op().sender in View().pending
      requires p.Holds(View().pending[p.Op().sender]) && this !in p.Footprint()
      requires var plan := View().pending[p.Op().sender];
               |plan.docs| == plan.op.Size() && plan.sb.Keys == plan.required.Keys
      modifies this`pool, this`fee, this`trace, p.Footprint()
      ensures Valid() && trace == old(trace) + [ProcessStep(p.Op().sender)]
      ensures r.Ok? <==> Processable(old(View()).pending[p.Op().sender])
      ensures r.Ok? ==> pool == PoolAfter(old(pool), old(View()).pending[p.Op().sender])
      ensures r.Ok? ==> fee == FeesWith(old(fee), old(View()).pending[p.Op().sender].required)
      ensures r.Err? ==> pool == old(pool) && fee == old(fee)
    {
      hide Ledger.PreProcess, Accepts, PoolAfter, FeesWith, NewInventory, SetAll, AddFees, Run, NewMachine;
      ghost var before, s := trace, p.Op().sender;
      ghost var plan := View().pending[s];
      RunStep(NewMachine(start, cp), before, ProcessStep(s));
      var sts: Result<seq<State>>;
      ghost var order;
      match p {
        case Creating(c) => sts, order := c.Process(plan);
        case Updating(u) => sts, order := u.Process(plan);
        case Signing(g) => sts, order := g.Process(plan);
      }
      trace := before + [ProcessStep(s)];
      if sts.Err? {
        return Err(sts.error);
      }
      SetPlanStates(pool, fee, plan, sts.value, order);
      SetState(sts.value);
      return Ok(());
    }

    /** An operation given whole is accepted and processed at once: the serial step. */
    method ProcessOperation(op: Operation) returns (r: Result<()>)
      requires Valid() && Indexed(start) && ValidTrace(trace) && op.ValidFact()
      modifies this
      ensures Valid() && ValidTrace(trace)
      ensures r.Ok? <==> Accepts(old(View()), op)
      ensures View() == if r.Ok? then Step(Step(old(View()), PreStep(op)), ProcessStep(op.sender)) else old(View())
    {
      hide Ledger.PreProcess, Accepts, Step, Indexed, PoolAfter, FeesWith, Operation.ValidFact;
      var p := PreProcess(op);
      if p.Err? {
        return Err(p.error);
      }
      AcceptedNeverFails(start, cp, trace, op.sender);
      ghost var accepted := trace;
      r := Process(p.value);
      assert trace[..|trace| - 1] == accepted;
    }
  }
}
