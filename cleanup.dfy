/**
 * `cleanup_callqueue_agents`: repair orphaned call-queue agents.  The orphan
 * records are grouped by (queue name, queue domain); for each group the
 * operator is asked to confirm, then the tool builds whatever domain and user
 * are missing, builds the queue, detaches every orphaned agent, deletes the
 * queue and removes exactly the scaffolding it built.
 */
module Cleanup {
  import opened Text
  import opened Records
  import opened Confirm
  import opened Remote

  const NameKey: string := "huntgroup_name"
  const DomainKey: string := "huntgroup_domain"
  const AgentKey: string := "device_aor"

  /** The keys the orphans are grouped and validated by. */
  const QueueKeys: seq<string> := [NameKey, DomainKey]

  /** The fields the tool indexes with `d[...]`; a record without one of them
      makes it raise KeyError. */
  predicate HasOrphanFields(r: Record) {
    AgentKey in r && NameKey in r && DomainKey in r
  }

  predicate AllHaveOrphanFields(rs: seq<Record>) {
    forall i :: 0 <= i < |rs| ==> HasOrphanFields(rs[i])
  }

  /** `d["huntgroup_name"]`, `d["huntgroup_domain"]` and `d["device_aor"]`; the
      workflow only reads them from records that have the fields. */
  function QueueName(d: Record): Value { Get(d, NameKey) }
  function QueueDomain(d: Record): Value { Get(d, DomainKey) }
  function AgentOf(d: Record): Value { Get(d, AgentKey) }

  /** Whether record `d` belongs to the queue `name`@`domain`. */
  predicate InQueue(d: Record, name: Value, domain: Value) {
    QueueName(d) == name && QueueDomain(d) == domain
  }

  /** `orphaned_agent_ids`: the agent of every orphan record of the queue, in input order. */
  function AgentIds(orphans: seq<Record>, name: Value, domain: Value): seq<Value> {
    if orphans == [] then []
    else
      var d := orphans[0];
      (if InQueue(d, name, domain) then [AgentOf(d)] else []) + AgentIds(orphans[1..], name, domain)
  }

  // ---------------------------------------------------------------------------
  // The requests issued for one accepted group

  /** Build: the domain if it was missing, the user if it was missing, then the queue. */
  function Scaffold(name: Value, domain: Value, domainExisted: bool, userExisted: bool): seq<Action> {
    (if domainExisted then [] else [CreateDomain(domain)])
    + (if userExisted then [] else [CreateUser(name, domain)])
    + [CreateQueue(name, domain)]
  }

  /** Use: one agent deletion per agent id, in order. */
  function Detach(name: Value, domain: Value, ids: seq<Value>): seq<Action> {
    if ids == [] then []
    else Detach(name, domain, ids[..|ids| - 1]) + [DeleteAgent(ids[|ids| - 1], name, domain)]
  }

  /** Tear down: the queue, then the user and domain if the domain was built,
      or the user alone if only the user was built. */
  function Teardown(name: Value, domain: Value, domainExisted: bool, userExisted: bool): seq<Action> {
    [DeleteQueue(name, domain)]
    + (if !domainExisted then [DeleteUser(name, domain), DeleteDomain(domain)]
       else if !userExisted then [DeleteUser(name, domain)]
       else [])
  }

  function GroupCalls(name: Value, domain: Value, ids: seq<Value>, domainExisted: bool, userExisted: bool): seq<Action> {
    Scaffold(name, domain, domainExisted, userExisted)
    + Detach(name, domain, ids)
    + Teardown(name, domain, domainExisted, userExisted)
  }

  /** The requests for one accepted group against remote state `s`: the user is
      only looked up when the domain existed, and is taken as missing otherwise. */
  function GroupCallsAt(s: State, name: Value, domain: Value, ids: seq<Value>): seq<Action> {
    var domainExisted := domain in s.domains;
    var userExisted := domainExisted && (name, domain) in s.users;
    GroupCalls(name, domain, ids, domainExisted, userExisted)
  }

  // ---------------------------------------------------------------------------
  // The whole session

  /** The requests for the group `group` once the operator has answered: the
      repair when they accepted, nothing when they declined. */
  function GroupRequests(orphans: seq<Record>, group: Record, accepted: bool, s: State): seq<Action> {
    if accepted then
      GroupCallsAt(s, QueueName(group), QueueDomain(group), AgentIds(orphans, QueueName(group), QueueDomain(group)))
    else
      []
  }

  /**
   * The requests of a whole run over `groups`, with the operator's answer lines
   * `responses` and the remote state `s` at the start.  Each group consumes the
   * answer lines of one confirmation; a declined group issues nothing; input
   * running out stops the run.
   */
  function Session(orphans: seq<Record>, groups: seq<Record>, answers: seq<Answer>, s: State): seq<Action>
    decreases |groups|
  {
    if groups == [] then []
    else
      match Decide(answers)
      case EndOfInput => []
      case Decided(accepted, used) =>
        var calls := GroupRequests(orphans, groups[0], accepted, s);
        calls + Session(orphans, groups[1..], answers[used..], Run(s, calls))
  }

  /** Whether the answer lines give a confirmation for each of `count` groups. */
  function AllGroupsAnswered(count: nat, answers: seq<Answer>): bool {
    if count == 0 then true
    else
      match Decide(answers)
      case EndOfInput => false
      case Decided(_, used) => AllGroupsAnswered(count - 1, answers[used..])
  }

  // ---------------------------------------------------------------------------
  // The imperative workflow

  /** Build phase: look the domain up, build it if missing (the user then
      counts as missing), otherwise look the user up; build the user if
      missing; build the queue. */
  method BuildScaffolding(remote: RemoteSystem, queueName: Value, queueDomain: Value)
    returns (domainExisted: bool, userExisted: bool)
    requires remote.Valid()
    modifies remote
    ensures remote.Valid() && remote.initial == old(remote.initial)
    ensures domainExisted == (queueDomain in old(remote.domains))
    ensures userExisted == (domainExisted && (queueName, queueDomain) in old(remote.users))
    ensures remote.log == old(remote.log) + Scaffold(queueName, queueDomain, domainExisted, userExisted)
  {
    domainExisted := remote.CheckIfDomainExists(queueDomain);
    if !domainExisted {
      remote.BuildDomain(queueDomain);
      userExisted := false;
    } else {
      userExisted := remote.CheckIfUserExists(queueName, queueDomain);
    }
    if !userExisted {
      remote.BuildUser(queueName, queueDomain);
    }
    remote.BuildCallqueue(queueName, queueDomain);
  }

  /** Use phase: detach every orphaned agent from the queue, in order. */
  method DetachAgents(remote: RemoteSystem, queueName: Value, queueDomain: Value, orphanedAgentIds: seq<Value>)
    requires remote.Valid()
    modifies remote
    ensures remote.Valid() && remote.initial == old(remote.initial)
    ensures remote.log == old(remote.log) + Detach(queueName, queueDomain, orphanedAgentIds)
  {
    for k := 0 to |orphanedAgentIds|
      invariant remote.Valid() && remote.initial == old(remote.initial)
      invariant remote.log == old(remote.log) + Detach(queueName, queueDomain, orphanedAgentIds[..k])
    {
      remote.DeleteQueueAgents(orphanedAgentIds[k], queueName, queueDomain);
      assert orphanedAgentIds[..k + 1][..k] == orphanedAgentIds[..k];
    }
    assert orphanedAgentIds[..|orphanedAgentIds|] == orphanedAgentIds;
  }

  /** Teardown phase: delete the queue, then what the build phase created. */
  method TearDownScaffolding(remote: RemoteSystem, queueName: Value, queueDomain: Value, domainExisted: bool, userExisted: bool)
    requires remote.Valid()
    modifies remote
    ensures remote.Valid() && remote.initial == old(remote.initial)
    ensures remote.log == old(remote.log) + Teardown(queueName, queueDomain, domainExisted, userExisted)
  {
    remote.DeleteCallqueue(queueName, queueDomain);
    if !domainExisted {
      remote.DeleteUser(queueName, queueDomain);
      remote.DeleteDomain(queueDomain);
    } else if !userExisted {
      remote.DeleteUser(queueName, queueDomain);
    }
  }

  /** The body of the loop of `cleanup_callqueue_agents` once the operator has
      accepted: build, detach, tear down. */
  method RepairGroup(remote: RemoteSystem, queueName: Value, queueDomain: Value, orphanedAgentIds: seq<Value>)
    requires remote.Valid()
    modifies remote
    ensures remote.Valid() && remote.initial == old(remote.initial)
    ensures remote.log == old(remote.log) + GroupCallsAt(old(remote.View()), queueName, queueDomain, orphanedAgentIds)
    ensures remote.View() == Run(old(remote.View()), GroupCallsAt(old(remote.View()), queueName, queueDomain, orphanedAgentIds))
  {
    ghost var log0 := remote.log;
    ghost var calls := GroupCallsAt(remote.View(), queueName, queueDomain, orphanedAgentIds);
    var domainExisted, userExisted := BuildScaffolding(remote, queueName, queueDomain);
    ghost var built := Scaffold(queueName, queueDomain, domainExisted, userExisted);
    DetachAgents(remote, queueName, queueDomain, orphanedAgentIds);
    ghost var detached := Detach(queueName, queueDomain, orphanedAgentIds);
    TearDownScaffolding(remote, queueName, queueDomain, domainExisted, userExisted);
    ghost var torn := Teardown(queueName, queueDomain, domainExisted, userExisted);
    assert calls == built + detached + torn;
    assert remote.log == log0 + calls;
    RunAppend(remote.initial, log0, calls);
  }

  /** `cleanup_callqueue_agents(orphaned_agents)`, with the operator's answer
      lines as input.  `completed` is false when the input ran out (EOFError). */
  method CleanupCallqueueAgents(remote: RemoteSystem, orphanedAgents: seq<Record>, responses: seq<string>)
    returns (missingQueues: seq<Record>, completed: bool)
    requires remote.Valid()
    requires AllHaveOrphanFields(orphanedAgents)
    modifies remote
    ensures missingQueues == Deduplicated(orphanedAgents, QueueKeys)
    ensures AllHaveOrphanFields(missingQueues)
    ensures remote.Valid() && remote.initial == old(remote.initial)
    ensures remote.log == old(remote.log) + Session(orphanedAgents, missingQueues, Classified(responses), old(remote.View()))
    ensures remote.View() == Run(old(remote.View()), Session(orphanedAgents, missingQueues, Classified(responses), old(remote.View())))
    ensures completed == AllGroupsAnswered(|missingQueues|, Classified(responses))
  {
    ghost var log0 := remote.log;
    missingQueues := UniqueByKeys(orphanedAgents, QueueKeys);
    GroupsAreOrphans(orphanedAgents);
    completed := ConfirmAndRepair(remote, orphanedAgents, missingQueues, responses);
    RunAppend(remote.initial, log0, Session(orphanedAgents, missingQueues, Classified(responses), old(remote.View())));
  }

  /** The loop of `cleanup_callqueue_agents` over the groups `missingQueues`. */
  method ConfirmAndRepair(remote: RemoteSystem, orphanedAgents: seq<Record>, missingQueues: seq<Record>, responses: seq<string>)
    returns (completed: bool)
    requires remote.Valid()
    requires AllHaveOrphanFields(orphanedAgents) && AllHaveOrphanFields(missingQueues)
    modifies remote
    ensures remote.Valid() && remote.initial == old(remote.initial)
    ensures remote.log == old(remote.log) + Session(orphanedAgents, missingQueues, Classified(responses), old(remote.View()))
    ensures completed == AllGroupsAnswered(|missingQueues|, Classified(responses))
  {
    ghost var log0 := remote.log;
    ghost var answers := Classified(responses);
    ghost var session := Session(orphanedAgents, missingQueues, answers, remote.View());
    var rest := responses;
    var i := 0;
    assert missingQueues[i..] == missingQueues;
    while i < |missingQueues|
      invariant 0 <= i <= |missingQueues|
      invariant remote.Valid() && remote.initial == old(remote.initial)
      invariant remote.log + Session(orphanedAgents, missingQueues[i..], Classified(rest), remote.View()) == log0 + session
      invariant AllGroupsAnswered(|missingQueues[i..]|, Classified(rest)) == AllGroupsAnswered(|missingQueues|, answers)
    {
      var verdict := NextGroup(remote, orphanedAgents, missingQueues[i..], rest);
      if verdict.EndOfInput? {
        assert remote.log == log0 + session;
        return false;
      }
      assert missingQueues[i..][1..] == missingQueues[i + 1..];
      rest := rest[verdict.used..];
      i := i + 1;
    }
    assert missingQueues[i..] == [];
    assert remote.log == log0 + session;
    completed := true;
  }

  /**
   * The first group of `groups`, as one iteration of the loop: the requests it
   * issues are the first part of the session over `groups`, and what is left of
   * the session is the session over the remaining groups and answer lines.
   */
  method NextGroup(remote: RemoteSystem, orphanedAgents: seq<Record>, groups: seq<Record>, rest: seq<string>)
    returns (verdict: Reply)
    requires remote.Valid() && groups != []
    requires AllHaveOrphanFields(orphanedAgents) && HasOrphanFields(groups[0])
    modifies remote
    ensures remote.Valid() && remote.initial == old(remote.initial)
    ensures verdict == Decide(Classified(rest))
    ensures verdict.EndOfInput? ==>
      && remote.log == old(remote.log)
      && Session(orphanedAgents, groups, Classified(rest), old(remote.View())) == []
      && !AllGroupsAnswered(|groups|, Classified(rest))
    ensures verdict.Decided? ==>
      && remote.log + Session(orphanedAgents, groups[1..], Classified(rest[verdict.used..]), remote.View())
         == old(remote.log) + Session(orphanedAgents, groups, Classified(rest), old(remote.View()))
      && AllGroupsAnswered(|groups[1..]|, Classified(rest[verdict.used..])) == AllGroupsAnswered(|groups|, Classified(rest))
  {
    ghost var before := remote.View();
    ghost var logBefore := remote.log;
    SessionStep(orphanedAgents, groups, Classified(rest), before);
    verdict := HandleGroup(remote, orphanedAgents, groups[0], rest);
    if verdict.Decided? {
      ClassifiedSuffix(rest, verdict.used);
      ghost var calls := GroupRequests(orphanedAgents, groups[0], verdict.verdict, before);
      ghost var later := Session(orphanedAgents, groups[1..], Classified(rest[verdict.used..]), remote.View());
      assert remote.log == logBefore + calls;
      assert remote.log + later == logBefore + (calls + later) by {
        assert forall a: seq<Action>, b: seq<Action>, c: seq<Action> :: (a + b) + c == a + (b + c);
      }
    }
  }

  /** One iteration of the loop of `cleanup_callqueue_agents`, for the group
      `queue`: ask the operator, and repair the group if they accept. */
  method HandleGroup(remote: RemoteSystem, orphanedAgents: seq<Record>, queue: Record, rest: seq<string>)
    returns (verdict: Reply)
    requires remote.Valid()
    requires AllHaveOrphanFields(orphanedAgents) && HasOrphanFields(queue)
    modifies remote
    ensures remote.Valid() && remote.initial == old(remote.initial)
    ensures verdict == Decide(Classified(rest))
    ensures verdict.EndOfInput? ==> remote.log == old(remote.log) && remote.View() == old(remote.View())
    ensures verdict.Decided? ==>
      && remote.log == old(remote.log) + GroupRequests(orphanedAgents, queue, verdict.verdict, old(remote.View()))
      && remote.View() == Run(old(remote.View()), GroupRequests(orphanedAgents, queue, verdict.verdict, old(remote.View())))
  {
    var queueName := Get(queue, NameKey);
    var queueDomain := Get(queue, DomainKey);
    var orphanedAgentIds := AgentIds(orphanedAgents, queue[NameKey], queue[DomainKey]);
    verdict := AskYesNo(rest);
    if verdict.Decided? && verdict.verdict {
      RepairGroup(remote, queueName, queueDomain, orphanedAgentIds);
    }
  }

  /** One step of a session: the first group's requests, then the rest. */
  lemma SessionStep(orphans: seq<Record>, groups: seq<Record>, answers: seq<Answer>, s: State)
    requires groups != []
    ensures Decide(answers).EndOfInput? ==>
      Session(orphans, groups, answers, s) == [] && !AllGroupsAnswered(|groups|, answers)
    ensures Decide(answers).Decided? ==>
      var reply := Decide(answers);
      var calls := GroupRequests(orphans, groups[0], reply.verdict, s);
      && Session(orphans, groups, answers, s)
         == calls + Session(orphans, groups[1..], answers[reply.used..], Run(s, calls))
      && AllGroupsAnswered(|groups|, answers) == AllGroupsAnswered(|groups[1..]|, answers[reply.used..])
  {
    assert |groups[1..]| == |groups| - 1;
  }

  // ---------------------------------------------------------------------------
  // Grouping and agent selection

  /** The groups are orphan records themselves, so they carry the fields too. */
  lemma GroupsAreOrphans(orphans: seq<Record>)
    requires AllHaveOrphanFields(orphans)
    ensures AllHaveOrphanFields(Deduplicated(orphans, QueueKeys))
  {
    var idx := KeptPositions(orphans, QueueKeys);
    assert forall j :: 0 <= j < |idx| ==> HasOrphanFields(orphans[idx[j]]);
  }

  /** Equal (name, domain) key tuples mean the same queue. */
  lemma KeyTupleIsQueue(d: Record, e: Record)
    ensures KeyTuple(d, QueueKeys) == KeyTuple(e, QueueKeys) <==> InQueue(d, QueueName(e), QueueDomain(e))
  {
    var td, te := KeyTuple(d, QueueKeys), KeyTuple(e, QueueKeys);
    assert td[0] == (NameKey, QueueName(d)) && td[1] == (DomainKey, QueueDomain(d));
    assert te[0] == (NameKey, QueueName(e)) && te[1] == (DomainKey, QueueDomain(e));
    if InQueue(d, QueueName(e), QueueDomain(e)) {
      assert td == te;
    }
  }

  /** An agent id is selected for a queue exactly when some orphan record of that
      queue carries it. */
  lemma {:induction false} AgentIdsMembers(orphans: seq<Record>, name: Value, domain: Value, agent: Value)
    ensures agent in AgentIds(orphans, name, domain) <==>
      exists i :: 0 <= i < |orphans| && InQueue(orphans[i], name, domain) && AgentOf(orphans[i]) == agent
  {
    if orphans != [] {
      var tail := orphans[1..];
      assert forall i :: 0 <= i < |tail| ==> tail[i] == orphans[i + 1];
      AgentIdsMembers(tail, name, domain, agent);
      if exists i :: 0 <= i < |orphans| && InQueue(orphans[i], name, domain) && AgentOf(orphans[i]) == agent {
        var i :| 0 <= i < |orphans| && InQueue(orphans[i], name, domain) && AgentOf(orphans[i]) == agent;
        if i > 0 {
          assert tail[i - 1] == orphans[i];
        }
      }
    }
  }

  /** Selection keeps input order: the ids of a concatenation are the ids of
      each part, one after the other. */
  lemma {:induction false} AgentIdsAppend(first: seq<Record>, second: seq<Record>, name: Value, domain: Value)
    ensures AgentIds(first + second, name, domain) == AgentIds(first, name, domain) + AgentIds(second, name, domain)
  {
    if first != [] {
      assert (first + second)[1..] == first[1..] + second;
      AgentIdsAppend(first[1..], second, name, domain);
    } else {
      assert first + second == second;
    }
  }

  /** Every valid orphan record belongs to a group, and its agent is among that
      group's agent ids. */
  lemma ValidOrphanHasGroup(orphans: seq<Record>, i: nat)
    requires i < |orphans| && IsValid(orphans[i], QueueKeys)
    ensures
      exists j :: 0 <= j < |Deduplicated(orphans, QueueKeys)| &&
        InQueue(orphans[i], QueueName(Deduplicated(orphans, QueueKeys)[j]), QueueDomain(Deduplicated(orphans, QueueKeys)[j])) &&
        AgentOf(orphans[i]) in AgentIds(orphans, QueueName(Deduplicated(orphans, QueueKeys)[j]), QueueDomain(Deduplicated(orphans, QueueKeys)[j]))
  {
    var groups := Deduplicated(orphans, QueueKeys);
    DeduplicatedKeys(orphans, QueueKeys);
    var r := orphans[i];
    assert KeyTuple(r, QueueKeys) in ValidKeys(orphans, QueueKeys);
    var j :| 0 <= j < |groups| && KeyTuple(groups[j], QueueKeys) == KeyTuple(r, QueueKeys);
    var g := groups[j];
    KeyTupleIsQueue(r, g);
    AgentIdsMembers(orphans, QueueName(g), QueueDomain(g), AgentOf(r));
  }

  /** No two groups name the same queue, so an orphan record is in at most one. */
  lemma GroupsAreDistinctQueues(orphans: seq<Record>)
    ensures forall j, k :: 0 <= j < k < |Deduplicated(orphans, QueueKeys)| ==>
      (QueueName(Deduplicated(orphans, QueueKeys)[j]), QueueDomain(Deduplicated(orphans, QueueKeys)[j]))
      != (QueueName(Deduplicated(orphans, QueueKeys)[k]), QueueDomain(Deduplicated(orphans, QueueKeys)[k]))
  {
    var groups := Deduplicated(orphans, QueueKeys);
    DeduplicatedDistinct(orphans, QueueKeys);
    forall j, k | 0 <= j < k < |groups|
      ensures (QueueName(groups[j]), QueueDomain(groups[j])) != (QueueName(groups[k]), QueueDomain(groups[k]))
    {
      KeyTupleIsQueue(groups[j], groups[k]);
    }
  }

  /** A record whose name or domain fails the identifier check shares its queue
      with no group: its agent is never detached through it. */
  lemma InvalidOrphanHasNoGroup(orphans: seq<Record>, i: nat)
    requires i < |orphans| && !IsValid(orphans[i], QueueKeys)
    ensures forall j :: 0 <= j < |Deduplicated(orphans, QueueKeys)| ==>
      !InQueue(orphans[i], QueueName(Deduplicated(orphans, QueueKeys)[j]), QueueDomain(Deduplicated(orphans, QueueKeys)[j]))
  {
    var groups := Deduplicated(orphans, QueueKeys);
    DeduplicatedKeys(orphans, QueueKeys);
    var r := orphans[i];
    forall j | 0 <= j < |groups|
      ensures !InQueue(r, QueueName(groups[j]), QueueDomain(groups[j]))
    {
      KeyTupleIsQueue(r, groups[j]);
      if InQueue(r, QueueName(groups[j]), QueueDomain(groups[j])) {
        ValidityFollowsKeyTuple(r, groups[j], QueueKeys);
      }
    }
  }

  /** Every group has at least one agent to detach: its own record's. */
  lemma GroupHasAgents(orphans: seq<Record>, j: nat)
    requires j < |Deduplicated(orphans, QueueKeys)|
    ensures var g := Deduplicated(orphans, QueueKeys)[j];
      |AgentIds(orphans, QueueName(g), QueueDomain(g))| >= 1
  {
    var idx := KeptPositions(orphans, QueueKeys);
    var g := Deduplicated(orphans, QueueKeys)[j];
    AgentIdsMembers(orphans, QueueName(g), QueueDomain(g), AgentOf(g));
    assert orphans[idx[j]] == g;
  }

  // ---------------------------------------------------------------------------
  // Teardown symmetry

  /** The inverse of a build request. */
  function Undo(a: Action): Action {
    match a
    case CreateDomain(d) => DeleteDomain(d)
    case CreateUser(u, d) => DeleteUser(u, d)
    case CreateQueue(q, d) => DeleteQueue(q, d)
    case _ => a
  }

  /** The requests that undo `calls`: each inverted, in reverse order. */
  function UndoAll(calls: seq<Action>): seq<Action> {
    if calls == [] then [] else UndoAll(calls[1..]) + [Undo(calls[0])]
  }

  /**
   * The teardown is the build undone in reverse order, provided the user is
   * taken as missing whenever the domain was (as the tool does when it builds
   * the domain).
   */
  lemma TeardownMirrorsScaffold(name: Value, domain: Value, domainExisted: bool, userExisted: bool)
    requires !domainExisted ==> !userExisted
    ensures Teardown(name, domain, domainExisted, userExisted) == UndoAll(Scaffold(name, domain, domainExisted, userExisted))
  {
    var q := [CreateQueue(name, domain)];
    assert UndoAll(q) == [DeleteQueue(name, domain)];
    if !domainExisted {
      var built := [CreateDomain(domain), CreateUser(name, domain)] + q;
      assert Scaffold(name, domain, domainExisted, userExisted) == built;
      assert built[1..][1..] == q;
      assert UndoAll(built[1..]) == UndoAll(q) + [DeleteUser(name, domain)];
    } else if !userExisted {
      var built := [CreateUser(name, domain)] + q;
      assert Scaffold(name, domain, domainExisted, userExisted) == built;
      assert built[1..] == q;
    } else {
      assert Scaffold(name, domain, domainExisted, userExisted) == q;
    }
  }

  lemma {:induction false} DetachOnlyDeletesAgents(name: Value, domain: Value, ids: seq<Value>)
    ensures |Detach(name, domain, ids)| == |ids|
    ensures forall k :: 0 <= k < |ids| ==> Detach(name, domain, ids)[k] == DeleteAgent(ids[k], name, domain)
  {
    if ids != [] {
      DetachOnlyDeletesAgents(name, domain, ids[..|ids| - 1]);
    }
  }

  /** The domain is built exactly when it was missing, and then also deleted; the
      user is built exactly when it was missing (or its domain was), and then
      also deleted.  Nothing else is built or deleted but the queue and agents. */
  lemma GroupBuildsAndDeletesAlike(s: State, name: Value, domain: Value, ids: seq<Value>)
    requires Consistent(s)
    ensures CreateDomain(domain) in GroupCallsAt(s, name, domain, ids) <==> domain !in s.domains
    ensures DeleteDomain(domain) in GroupCallsAt(s, name, domain, ids) <==> domain !in s.domains
    ensures CreateUser(name, domain) in GroupCallsAt(s, name, domain, ids) <==> (name, domain) !in s.users
    ensures DeleteUser(name, domain) in GroupCallsAt(s, name, domain, ids) <==> (name, domain) !in s.users
  {
    DetachOnlyDeletesAgents(name, domain, ids);
    var domainExisted := domain in s.domains;
    var userExisted := domainExisted && (name, domain) in s.users;
    var built := Scaffold(name, domain, domainExisted, userExisted);
    var detach := Detach(name, domain, ids);
    var torn := Teardown(name, domain, domainExisted, userExisted);
    var calls := GroupCallsAt(s, name, domain, ids);
    assert calls == built + detach + torn;
    assert forall a :: a in calls <==> a in built || a in detach || a in torn;
    assert !domainExisted ==> (name, domain) !in s.users;
  }

  /** The agent entries a group detaches. */
  function AgentEntries(name: Value, domain: Value, ids: seq<Value>): set<(Value, Value, Value)> {
    set a | a in ids :: (a, name, domain)
  }

  lemma {:induction false} RunDetach(s: State, name: Value, domain: Value, ids: seq<Value>)
    ensures Run(s, Detach(name, domain, ids)) == s.(agents := s.agents - AgentEntries(name, domain, ids))
  {
    if ids != [] {
      var front := ids[..|ids| - 1];
      var last := ids[|ids| - 1];
      RunDetach(s, name, domain, front);
      RunAppend(s, Detach(name, domain, front), [DeleteAgent(last, name, domain)]);
      assert ids == front + [last];
      assert AgentEntries(name, domain, ids) == AgentEntries(name, domain, front) + {(last, name, domain)};
    } else {
      assert AgentEntries(name, domain, ids) == {};
    }
  }

  lemma RunSingle(s: State, a: Action)
    ensures Run(s, [a]) == Apply(s, a)
  {
    assert [a][1..] == [];
  }

  /** What the build requests do: add the domain, the user and the queue. */
  lemma RunScaffold(s: State, name: Value, domain: Value, domainExisted: bool, userExisted: bool)
    requires domainExisted ==> domain in s.domains
    requires userExisted ==> (name, domain) in s.users
    ensures Run(s, Scaffold(name, domain, domainExisted, userExisted))
      == s.(domains := s.domains + {domain}, users := s.users + {(name, domain)}, queues := s.queues + {(name, domain)})
  {
    var first: seq<Action> := if domainExisted then [] else [CreateDomain(domain)];
    var second: seq<Action> := if userExisted then [] else [CreateUser(name, domain)];
    var third := [CreateQueue(name, domain)];
    RunAppend(s, first + second, third);
    RunAppend(s, first, second);
    if !domainExisted { RunSingle(s, CreateDomain(domain)); }
    var s1 := Run(s, first);
    assert s1 == s.(domains := s.domains + {domain});
    if !userExisted { RunSingle(s1, CreateUser(name, domain)); }
    var s2 := Run(s1, second);
    assert s2 == s1.(users := s.users + {(name, domain)});
    RunSingle(s2, CreateQueue(name, domain));
  }

  /** What the teardown requests do: remove the queue, and the user and domain
      when they were built. */
  lemma RunTeardown(s: State, name: Value, domain: Value, domainExisted: bool, userExisted: bool)
    ensures Run(s, Teardown(name, domain, domainExisted, userExisted))
      == s.(domains := if domainExisted then s.domains else s.domains - {domain},
            users := if domainExisted && userExisted then s.users else s.users - {(name, domain)},
            queues := s.queues - {(name, domain)})
  {
    var first := [DeleteQueue(name, domain)];
    var rest: seq<Action> :=
      if !domainExisted then [DeleteUser(name, domain), DeleteDomain(domain)]
      else if !userExisted then [DeleteUser(name, domain)]
      else [];
    RunAppend(s, first, rest);
    RunSingle(s, DeleteQueue(name, domain));
    var s1 := Apply(s, DeleteQueue(name, domain));
    if !domainExisted {
      RunAppend(s1, [DeleteUser(name, domain)], [DeleteDomain(domain)]);
      assert rest == [DeleteUser(name, domain)] + [DeleteDomain(domain)];
      RunSingle(s1, DeleteUser(name, domain));
      RunSingle(Apply(s1, DeleteUser(name, domain)), DeleteDomain(domain));
    } else if !userExisted {
      RunSingle(s1, DeleteUser(name, domain));
    }
  }

  /**
   * On a consistent remote state, repairing one group leaves the domains and
   * users as they were, removes the group's queue and detaches its agents.
   */
  lemma GroupRestoresScaffolding(s: State, name: Value, domain: Value, ids: seq<Value>)
    requires Consistent(s)
    ensures Run(s, GroupCallsAt(s, name, domain, ids))
      == s.(queues := s.queues - {(name, domain)}, agents := s.agents - AgentEntries(name, domain, ids))
  {
    var domainExisted := domain in s.domains;
    var userExisted := domainExisted && (name, domain) in s.users;
    var built := Scaffold(name, domain, domainExisted, userExisted);
    var detach := Detach(name, domain, ids);
    var torn := Teardown(name, domain, domainExisted, userExisted);
    RunAppend(s, built + detach, torn);
    RunAppend(s, built, detach);
    RunScaffold(s, name, domain, domainExisted, userExisted);
    var s1 := Run(s, built);
    RunDetach(s1, name, domain, ids);
    var s2 := Run(s1, detach);
    RunTeardown(s2, name, domain, domainExisted, userExisted);
    var s3 := Run(s2, torn);
    assert GroupCallsAt(s, name, domain, ids) == built + detach + torn;
    assert Run(s, GroupCallsAt(s, name, domain, ids)) == s3;
    assert s2.domains == s.domains + {domain} && s2.users == s.users + {(name, domain)};
    assert s3.domains == s.domains;
    assert !domainExisted ==> (name, domain) !in s.users;
    assert s3.users == s.users;
    assert s3.queues == s.queues - {(name, domain)};
  }

  /** The queues named by a list of groups. */
  function GroupQueues(groups: seq<Record>): set<(Value, Value)> {
    set i | 0 <= i < |groups| :: (QueueName(groups[i]), QueueDomain(groups[i]))
  }

  /**
   * Over a whole run on a consistent remote state, the domains and users end as
   * they began; only the groups' queues and the agents of those queues can
   * have gone, and nothing is added.
   */
  lemma {:induction false} SessionRestoresScaffolding(orphans: seq<Record>, groups: seq<Record>, answers: seq<Answer>, s: State)
    requires Consistent(s)
    ensures var t := Run(s, Session(orphans, groups, answers, s));
      && t.domains == s.domains && t.users == s.users
      && s.queues - GroupQueues(groups) <= t.queues <= s.queues
      && (forall e :: e in s.agents && (e.1, e.2) !in GroupQueues(groups) ==> e in t.agents)
      && t.agents <= s.agents
    decreases |groups|
  {
    if groups != [] {
      var name := QueueName(groups[0]);
      var domain := QueueDomain(groups[0]);
      var tail := groups[1..];
      assert GroupQueues(tail) <= GroupQueues(groups) by {
        forall q | q in GroupQueues(tail) ensures q in GroupQueues(groups) {
          var i :| 0 <= i < |tail| && q == (QueueName(tail[i]), QueueDomain(tail[i]));
          assert tail[i] == groups[i + 1];
        }
      }
      assert (name, domain) in GroupQueues(groups) by {
        assert (QueueName(groups[0]), QueueDomain(groups[0])) in GroupQueues(groups);
      }
      match Decide(answers)
      case EndOfInput =>
      case Decided(accepted, used) =>
        var ids := AgentIds(orphans, name, domain);
        var calls := GroupRequests(orphans, groups[0], accepted, s);
        var s1 := Run(s, calls);
        if accepted {
          GroupRestoresScaffolding(s, name, domain, ids);
        }
        assert Consistent(s1);
        SessionRestoresScaffolding(orphans, tail, answers[used..], s1);
        RunAppend(s, calls, Session(orphans, tail, answers[used..], s1));
    }
  }

  /** An operator who never answers yes causes no request at all. */
  lemma {:induction false} NoRequestsWithoutYes(orphans: seq<Record>, groups: seq<Record>, answers: seq<Answer>, s: State)
    requires forall i :: 0 <= i < |answers| ==> answers[i] != Yes
    ensures Session(orphans, groups, answers, s) == []
    decreases |groups|
  {
    if groups != [] {
      match Decide(answers)
      case EndOfInput =>
      case Decided(accepted, used) =>
        DecideCharacterized(answers);
        var rest := answers[used..];
        assert forall i :: 0 <= i < |rest| ==> rest[i] == answers[used + i];
        NoRequestsWithoutYes(orphans, groups[1..], rest, s);
    }
  }

  /** A declined group issues nothing, and the groups after it are handled
      exactly as they would have been without it. */
  lemma DeclinedGroupIssuesNothing(orphans: seq<Record>, groups: seq<Record>, answers: seq<Answer>, s: State)
    requires groups != [] && Decide(answers).Decided? && !Decide(answers).verdict
    ensures Session(orphans, groups, answers, s)
      == Session(orphans, groups[1..], answers[Decide(answers).used..], s)
  {
  }

  // ---------------------------------------------------------------------------
  // A worked example

  /** The orphan record of agent `agent` on queue "sales"@"a.example.com". */
  function SalesOrphan(agent: string): Record {
    map[AgentKey := Str(agent), NameKey := Str("sales"), DomainKey := Str("a.example.com")]
  }

  lemma SalesOrphanFields(agent: string)
    ensures AgentOf(SalesOrphan(agent)) == Str(agent)
    ensures QueueName(SalesOrphan(agent)) == Str("sales")
    ensures QueueDomain(SalesOrphan(agent)) == Str("a.example.com")
  {
    assert AgentKey != NameKey && AgentKey != DomainKey && NameKey != DomainKey;
  }

  /** Both records name the same valid queue, so they form one group, led by the first. */
  lemma SalesGroups()
    ensures Deduplicated([SalesOrphan("1001"), SalesOrphan("1002")], QueueKeys) == [SalesOrphan("1001")]
  {
    var first, second := SalesOrphan("1001"), SalesOrphan("1002");
    SalesOrphanFields("1001");
    SalesOrphanFields("1002");
    assert MatchesIdentifierPattern("sales") && MatchesIdentifierPattern("a.example.com");
    assert IsValid(first, QueueKeys);
    KeyTupleIsQueue(second, first);
    DeduplicatedAppend([], first, QueueKeys);
    assert [] + [first] == [first];
    DeduplicatedAppend([first], second, QueueKeys);
    assert [first] + [second] == [first, second];
  }

  /** The group's agent ids are both agents, in input order. */
  lemma SalesAgentIds()
    ensures AgentIds([SalesOrphan("1001"), SalesOrphan("1002")], Str("sales"), Str("a.example.com"))
      == [Str("1001"), Str("1002")]
  {
    var orphans := [SalesOrphan("1001"), SalesOrphan("1002")];
    SalesOrphanFields("1001");
    SalesOrphanFields("1002");
    assert orphans[1..] == [SalesOrphan("1002")];
    assert orphans[1..][1..] == [];
  }

  /** Against a remote system without the domain, the group's requests are the
      full build, both detachments and the full teardown. */
  lemma SalesRequests(s: State)
    requires Str("a.example.com") !in s.domains
    ensures
      var name, domain := Str("sales"), Str("a.example.com");
      GroupCallsAt(s, name, domain, [Str("1001"), Str("1002")])
      == [CreateDomain(domain), CreateUser(name, domain), CreateQueue(name, domain),
          DeleteAgent(Str("1001"), name, domain), DeleteAgent(Str("1002"), name, domain),
          DeleteQueue(name, domain), DeleteUser(name, domain), DeleteDomain(domain)]
  {
    var name, domain := Str("sales"), Str("a.example.com");
    var ids := [Str("1001"), Str("1002")];
    assert Detach(name, domain, ids) == [DeleteAgent(Str("1001"), name, domain), DeleteAgent(Str("1002"), name, domain)] by {
      assert ids[..1] == [Str("1001")];
      assert ids[..1][..0] == [];
    }
  }

  /**
   * Two agents orphaned from "sales"@"a.example.com", a domain the remote
   * system does not have, and the operator answering "y": one group, and the
   * requests build the domain, the user and the queue, detach both agents in
   * order, then delete the queue, the user and the domain.
   */
  lemma SalesExample(s: State)
    requires Str("a.example.com") !in s.domains
    ensures Deduplicated([SalesOrphan("1001"), SalesOrphan("1002")], QueueKeys) == [SalesOrphan("1001")]
    ensures
      var name, domain := Str("sales"), Str("a.example.com");
      Session([SalesOrphan("1001"), SalesOrphan("1002")], [SalesOrphan("1001")], Classified(["y"]), s)
      == [CreateDomain(domain), CreateUser(name, domain), CreateQueue(name, domain),
          DeleteAgent(Str("1001"), name, domain), DeleteAgent(Str("1002"), name, domain),
          DeleteQueue(name, domain), DeleteUser(name, domain), DeleteDomain(domain)]
  {
    SalesGroups();
    SalesAgentIds();
    SalesOrphanFields("1001");
    SalesRequests(s);
    var orphans := [SalesOrphan("1001"), SalesOrphan("1002")];
    assert Classified(["y"]) == [Yes] by {
      StripTrimmed("y");
      assert Lower("y") == "y";
    }
    assert Decide([Yes]) == Decided(true, 1);
    var calls := GroupRequests(orphans, SalesOrphan("1001"), true, s);
    assert Session(orphans, [SalesOrphan("1001")], [Yes], s) == calls + Session(orphans, [], [], Run(s, calls));
  }
}
