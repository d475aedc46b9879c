/**
The agent-scope backfill: three prioritised updates give each background job the agent named by
its payload, else by its inbox event, else by its scheduled action -- and only an agent of the
job's own tenant.
*/
module AgentScope {
  import opened Wrappers

  /** The JSON value stored under `agent_id` in a job payload. */
  datatype JsonValue = JsonString(text: string) | OtherJson

  datatype Job = Job(
    id: int, tenantId: int, payloadAgent: Option<JsonValue>, sourceInboxId: Option<int>, agentId: Option<string>)

  datatype Agent = Agent(id: string, tenantId: int)

  datatype InboxEvent = InboxEvent(id: int, tenantId: int, agentId: Option<string>)

  datatype ScheduledAction = ScheduledAction(jobId: int, tenantId: int, agentId: string)

  datatype Tables = Tables(agents: seq<Agent>, inbox: seq<InboxEvent>, actions: seq<ScheduledAction>)

  // ---------------------------------------------------------------- UUID text

  predicate IsHexDigit(c: char) {
    '0' <= c <= '9' || 'a' <= c <= 'f' || 'A' <= c <= 'F'
  }

  predicate IsUuidText(s: string) {
    |s| == 36 && forall i :: 0 <= i < 36 ==>
      if i in {8, 13, 18, 23} then s[i] == '-' else IsHexDigit(s[i])
  }

  /** The cast to uuid: identifiers are compared without regard to letter case. */
  function ToUuid(s: string): string {
    seq(|s|, i requires 0 <= i < |s| => if 'A' <= s[i] <= 'F' then (s[i] as int + 32) as char else s[i])
  }

  // ---------------------------------------------------------------- the three updates, row by row

  predicate BelongsTo(agents: seq<Agent>, id: string, tenantId: int) {
    exists i :: 0 <= i < |agents| && agents[i] == Agent(id, tenantId)
  }

  function FromPayload(job: Job, t: Tables): Job {
    if job.payloadAgent.Some? && job.payloadAgent.value.JsonString? && IsUuidText(job.payloadAgent.value.text) &&
       BelongsTo(t.agents, ToUuid(job.payloadAgent.value.text), job.tenantId) then
      job.(agentId := Some(ToUuid(job.payloadAgent.value.text)))
    else
      job
  }

  predicate InboxMatches(job: Job, e: InboxEvent, agents: seq<Agent>) {
    job.sourceInboxId == Some(e.id) && e.agentId.Some? && e.tenantId == job.tenantId &&
    BelongsTo(agents, e.agentId.value, job.tenantId)
  }

  /** UPDATE ... FROM takes a joined row; which one does not matter when at most one joins. */
  function FromInbox(job: Job, inbox: seq<InboxEvent>, agents: seq<Agent>): Job {
    if job.agentId.Some? || inbox == [] then job
    else if InboxMatches(job, inbox[0], agents) then job.(agentId := inbox[0].agentId)
    else FromInbox(job, inbox[1..], agents)
  }

  predicate ActionMatches(job: Job, a: ScheduledAction, agents: seq<Agent>) {
    a.jobId == job.id && a.tenantId == job.tenantId && BelongsTo(agents, a.agentId, job.tenantId)
  }

  function FromActions(job: Job, actions: seq<ScheduledAction>, agents: seq<Agent>): Job {
    if job.agentId.Some? || actions == [] then job
    else if ActionMatches(job, actions[0], agents) then job.(agentId := Some(actions[0].agentId))
    else FromActions(job, actions[1..], agents)
  }

  function Upgraded(job: Job, t: Tables): Job {
    FromActions(FromInbox(FromPayload(job, t), t.inbox, t.agents), t.actions, t.agents)
  }

  class BackgroundJobs {
    var jobs: seq<Job>

    constructor (rows: seq<Job>)
      ensures jobs == rows
    {
      jobs := rows;
    }

    method UpdateFromPayload(t: Tables)
      modifies this
      ensures |jobs| == |old(jobs)|
      ensures forall i :: 0 <= i < |jobs| ==> jobs[i] == FromPayload(old(jobs)[i], t)
    {
      var rows := jobs;
      jobs := seq(|rows|, i requires 0 <= i < |rows| => FromPayload(rows[i], t));
    }

    method UpdateFromInbox(t: Tables)
      modifies this
      ensures |jobs| == |old(jobs)|
      ensures forall i :: 0 <= i < |jobs| ==> jobs[i] == FromInbox(old(jobs)[i], t.inbox, t.agents)
    {
      var rows := jobs;
      jobs := seq(|rows|, i requires 0 <= i < |rows| => FromInbox(rows[i], t.inbox, t.agents));
    }

    method UpdateFromActions(t: Tables)
      modifies this
      ensures |jobs| == |old(jobs)|
      ensures forall i :: 0 <= i < |jobs| ==> jobs[i] == FromActions(old(jobs)[i], t.actions, t.agents)
    {
      var rows := jobs;
      jobs := seq(|rows|, i requires 0 <= i < |rows| => FromActions(rows[i], t.actions, t.agents));
    }

    /** The three statements in order; the column starts empty. */
    method Upgrade(t: Tables)
      modifies this
      ensures |jobs| == |old(jobs)|
      ensures forall i :: 0 <= i < |jobs| ==> jobs[i] == Upgraded(old(jobs)[i], t)
    {
      UpdateFromPayload(t);
      UpdateFromInbox(t);
      UpdateFromActions(t);
    }
  }

  // ---------------------------------------------------------------- who owns a job

  /** Primary keys, and one scheduled action per job. */
  ghost predicate Legal(t: Tables) {
    && (forall e, f :: e in t.inbox && f in t.inbox && e.id == f.id ==> e == f)
    && (forall a, b :: a in t.actions && b in t.actions && a.jobId == b.jobId ==> a == b)
  }

  ghost predicate OwnAgent(job: Job, t: Tables, id: string) {
    Agent(id, job.tenantId) in t.agents
  }

  /** One hexadecimal digit in either case, and the digit in lower case. */
  ghost predicate Digit(c: char, lower: char) {
    ('0' <= c <= '9' && lower == c) || ('a' <= c <= 'f' && lower == c) ||
    (c == 'A' && lower == 'a') || (c == 'B' && lower == 'b') || (c == 'C' && lower == 'c') ||
    (c == 'D' && lower == 'd') || (c == 'E' && lower == 'e') || (c == 'F' && lower == 'f')
  }

  /** A text of five hyphenated groups of 8, 4, 4, 4 and 12 digits spells the identifier with the same digits. */
  ghost predicate Spells(text: string, id: string) {
    && |text| == |id| == 36
    && (forall i :: 0 <= i < 8 || 9 <= i < 13 || 14 <= i < 18 || 19 <= i < 23 || 24 <= i < 36 ==>
          Digit(text[i], id[i]))
    && text[8] == text[13] == text[18] == text[23] == '-' && id[8] == id[13] == id[18] == id[23] == '-'
  }

  /** The pattern and the cast together read exactly the identifier a text spells. */
  lemma {:induction false} UuidExact(text: string, id: string)
    ensures IsUuidText(text) && ToUuid(text) == id <==> Spells(text, id)
  {
    if IsUuidText(text) && ToUuid(text) == id {
      forall i | 0 <= i < 8 || 9 <= i < 13 || 14 <= i < 18 || 19 <= i < 23 || 24 <= i < 36
        ensures Digit(text[i], id[i])
      {
        DigitExact(text[i]);
      }
    }
    if Spells(text, id) {
      forall i | 0 <= i < 36 ensures ToUuid(text)[i] == id[i] {
        if i !in {8, 13, 18, 23} {
          DigitExact(text[i]);
          assert Digit(text[i], id[i]);
        }
      }
    }
  }

  lemma DigitExact(c: char)
    ensures var lower := if 'A' <= c <= 'F' then (c as int + 32) as char else c;
            forall d :: Digit(c, d) <==> IsHexDigit(c) && d == lower
  {
  }

  ghost predicate PayloadOwner(job: Job, t: Tables, id: string) {
    exists text :: job.payloadAgent == Some(JsonString(text)) && Spells(text, id) && OwnAgent(job, t, id)
  }

  ghost predicate InboxOwner(job: Job, t: Tables, id: string) {
    exists e :: e in t.inbox && job.sourceInboxId == Some(e.id) && e.agentId == Some(id) &&
      e.tenantId == job.tenantId && OwnAgent(job, t, id)
  }

  ghost predicate ActionOwner(job: Job, t: Tables, id: string) {
    exists a :: a in t.actions && a.jobId == job.id && a.agentId == id && a.tenantId == job.tenantId &&
      OwnAgent(job, t, id)
  }

  /** The first of payload, inbox event and scheduled action that names an agent of the tenant. */
  ghost predicate Owner(job: Job, t: Tables, id: string) {
    if exists x :: PayloadOwner(job, t, x) then PayloadOwner(job, t, id)
    else if exists x :: InboxOwner(job, t, x) then InboxOwner(job, t, id)
    else ActionOwner(job, t, id)
  }

  lemma {:induction false} InboxUpdate(job: Job, inbox: seq<InboxEvent>, agents: seq<Agent>)
    requires job.agentId.None?
    ensures var after := FromInbox(job, inbox, agents);
            after == job.(agentId := after.agentId) &&
            (if after.agentId.Some? then
               exists e :: e in inbox && InboxMatches(job, e, agents) && after.agentId == e.agentId
             else
               forall e :: e in inbox ==> !InboxMatches(job, e, agents))
  {
    if inbox != [] && !InboxMatches(job, inbox[0], agents) {
      InboxUpdate(job, inbox[1..], agents);
      assert inbox == [inbox[0]] + inbox[1..];
    }
  }

  lemma {:induction false} ActionUpdate(job: Job, actions: seq<ScheduledAction>, agents: seq<Agent>)
    requires job.agentId.None?
    ensures var after := FromActions(job, actions, agents);
            after == job.(agentId := after.agentId) &&
            (if after.agentId.Some? then
               exists a :: a in actions && ActionMatches(job, a, agents) && after.agentId == Some(a.agentId)
             else
               forall a :: a in actions ==> !ActionMatches(job, a, agents))
  {
    if actions != [] && !ActionMatches(job, actions[0], agents) {
      ActionUpdate(job, actions[1..], agents);
      assert actions == [actions[0]] + actions[1..];
    }
  }

  lemma SettledRow(job: Job, t: Tables)
    requires job.agentId.Some?
    ensures FromActions(FromInbox(job, t.inbox, t.agents), t.actions, t.agents) == job
  {
  }

  lemma InboxMatchIsOwner(job: Job, t: Tables, e: InboxEvent)
    requires e in t.inbox && InboxMatches(job, e, t.agents)
    ensures InboxOwner(job, t, e.agentId.value)
  {
  }

  lemma ActionMatchIsOwner(job: Job, t: Tables, a: ScheduledAction)
    requires a in t.actions && ActionMatches(job, a, t.agents)
    ensures ActionOwner(job, t, a.agentId)
  {
  }

  lemma InboxOwnerMatches(job: Job, t: Tables, id: string) returns (e: InboxEvent)
    requires InboxOwner(job, t, id)
    ensures e in t.inbox && InboxMatches(job, e, t.agents) && e.agentId == Some(id)
  {
    e :| e in t.inbox && job.sourceInboxId == Some(e.id) && e.agentId == Some(id) && e.tenantId == job.tenantId &&
      OwnAgent(job, t, id);
  }

  lemma ActionOwnerMatches(job: Job, t: Tables, id: string) returns (a: ScheduledAction)
    requires ActionOwner(job, t, id)
    ensures a in t.actions && ActionMatches(job, a, t.agents) && a.agentId == id
  {
    a :| a in t.actions && a.jobId == job.id && a.agentId == id && a.tenantId == job.tenantId && OwnAgent(job, t, id);
  }

  lemma {:induction false} InboxOwnerUnique(job: Job, t: Tables, x: string, y: string)
    requires Legal(t) && InboxOwner(job, t, x) && InboxOwner(job, t, y)
    ensures x == y
  {
  }

  lemma {:induction false} ActionOwnerUnique(job: Job, t: Tables, x: string, y: string)
    requires Legal(t) && ActionOwner(job, t, x) && ActionOwner(job, t, y)
    ensures x == y
  {
  }

  lemma {:induction false} PayloadStep(job: Job, t: Tables)
    requires job.agentId.None?
    ensures FromPayload(job, t) == job.(agentId := FromPayload(job, t).agentId)
    ensures forall id :: FromPayload(job, t).agentId == Some(id) <==> PayloadOwner(job, t, id)
  {
    if job.payloadAgent.Some? && job.payloadAgent.value.JsonString? {
      var text := job.payloadAgent.value.text;
      forall id ensures IsUuidText(text) && ToUuid(text) == id <==> Spells(text, id) {
        UuidExact(text, id);
      }
    }
  }

  lemma {:induction false} InboxStep(job: Job, t: Tables, id: string)
    requires Legal(t) && job.agentId.None?
    ensures FromInbox(job, t.inbox, t.agents).agentId == Some(id) <==> InboxOwner(job, t, id)
  {
    InboxUpdate(job, t.inbox, t.agents);
    var after := FromInbox(job, t.inbox, t.agents);
    if after.agentId.Some? {
      var e :| e in t.inbox && InboxMatches(job, e, t.agents) && after.agentId == e.agentId;
      InboxMatchIsOwner(job, t, e);
      if InboxOwner(job, t, id) {
        InboxOwnerUnique(job, t, id, e.agentId.value);
      }
    } else if InboxOwner(job, t, id) {
      var e := InboxOwnerMatches(job, t, id);
    }
  }

  lemma {:induction false} ActionStep(job: Job, t: Tables, id: string)
    requires Legal(t) && job.agentId.None?
    ensures FromActions(job, t.actions, t.agents).agentId == Some(id) <==> ActionOwner(job, t, id)
  {
    ActionUpdate(job, t.actions, t.agents);
    var after := FromActions(job, t.actions, t.agents);
    if after.agentId.Some? {
      var a :| a in t.actions && ActionMatches(job, a, t.agents) && after.agentId == Some(a.agentId);
      ActionMatchIsOwner(job, t, a);
      if ActionOwner(job, t, id) {
        ActionOwnerUnique(job, t, id, a.agentId);
      }
    } else if ActionOwner(job, t, id) {
      var a := ActionOwnerMatches(job, t, id);
    }
  }

  /**
  The three sequential updates are one coalesce: a job ends up with an agent exactly when that
  agent owns it, and nothing else about the job changes.
  */
  lemma {:induction false} UpgradeIsCoalesce(job: Job, t: Tables, id: string)
    requires Legal(t) && job.agentId.None?
    ensures Upgraded(job, t).agentId == Some(id) <==> Owner(job, t, id)
    ensures Upgraded(job, t) == job.(agentId := Upgraded(job, t).agentId)
  {
    PayloadStep(job, t);
    var first := FromPayload(job, t);
    if first.agentId.Some? {
      SettledRow(first, t);
      assert PayloadOwner(job, t, first.agentId.value);
    } else {
      assert first == job;
      assert !exists x :: PayloadOwner(job, t, x);
      InboxUpdate(job, t.inbox, t.agents);
      var second := FromInbox(job, t.inbox, t.agents);
      if second.agentId.Some? {
        InboxStep(job, t, second.agentId.value);
        InboxStep(job, t, id);
      } else {
        assert second == job;
        if x :| InboxOwner(job, t, x) {
          InboxStep(job, t, x);
        }
        ActionUpdate(job, t.actions, t.agents);
        ActionStep(job, t, id);
      }
    }
  }

  /** Whatever is filled in is an agent of the job's own tenant. */
  lemma {:induction false} TenantScoped(job: Job, t: Tables)
    requires job.agentId.None? && Upgraded(job, t).agentId.Some?
    ensures Agent(Upgraded(job, t).agentId.value, Upgraded(job, t).tenantId) in t.agents
  {
    var first := FromPayload(job, t);
    if first.agentId.Some? {
      SettledRow(first, t);
    } else {
      InboxUpdate(first, t.inbox, t.agents);
      var second := FromInbox(first, t.inbox, t.agents);
      if second.agentId.None? {
        ActionUpdate(second, t.actions, t.agents);
      }
    }
  }

  /** Two states of the tables with the same rows in any order and multiplicity. */
  ghost predicate SameRows(t: Tables, u: Tables) {
    && (forall x :: x in t.agents <==> x in u.agents)
    && (forall x :: x in t.inbox <==> x in u.inbox)
    && (forall x :: x in t.actions <==> x in u.actions)
  }

  lemma {:induction false} OwnersSame(job: Job, t: Tables, u: Tables, id: string)
    requires SameRows(t, u)
    ensures PayloadOwner(job, t, id) <==> PayloadOwner(job, u, id)
    ensures InboxOwner(job, t, id) <==> InboxOwner(job, u, id)
    ensures ActionOwner(job, t, id) <==> ActionOwner(job, u, id)
  {
  }

  /** The result does not depend on the order in which any table is read. */
  lemma {:induction false} RowOrderIrrelevant(job: Job, t: Tables, u: Tables)
    requires Legal(t) && Legal(u) && SameRows(t, u) && job.agentId.None?
    ensures Upgraded(job, t) == Upgraded(job, u)
  {
    forall id ensures Owner(job, t, id) <==> Owner(job, u, id) {
      forall x
        ensures PayloadOwner(job, t, x) <==> PayloadOwner(job, u, x)
        ensures InboxOwner(job, t, x) <==> InboxOwner(job, u, x)
        ensures ActionOwner(job, t, x) <==> ActionOwner(job, u, x)
      {
        OwnersSame(job, t, u, x);
      }
    }
    var a, b := Upgraded(job, t).agentId, Upgraded(job, u).agentId;
    var some := if a.Some? then a.value else if b.Some? then b.value else "";
    UpgradeIsCoalesce(job, t, some);
    UpgradeIsCoalesce(job, u, some);
  }

  /** Running the statements again changes nothing. */
  lemma {:induction false} RerunChangesNothing(job: Job, t: Tables)
    requires Legal(t) && job.agentId.None?
    ensures Upgraded(Upgraded(job, t), t) == Upgraded(job, t)
  {
    var after := Upgraded(job, t);
    if after.agentId.Some? {
      UpgradeIsCoalesce(job, t, after.agentId.value);
      PayloadStep(job, t);
      SettledRow(after, t);
    } else {
      UpgradeIsCoalesce(job, t, "");
    }
  }
}
