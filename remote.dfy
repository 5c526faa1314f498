/**
 * The provisioning API as seen by the cleanup tool: an abstract remote state
 * (domains, users, call queues and queue agents), the requests the tool sends,
 * and the effect each request is taken to have.  Request bodies, headers and
 * authentication are not modelled.  The two existence checks read a count from
 * their response, given here as set membership; the responses to the create
 * and delete requests are never inspected, so each is taken to do what it asks.
 */
module Remote {
  import opened Records

  /** The state-changing requests the tool issues, one constructor per helper. */
  datatype Action =
    | CreateDomain(domain: Value)
    | CreateUser(user: Value, domain: Value)
    | CreateQueue(queue: Value, domain: Value)
    | DeleteAgent(agent: Value, queue: Value, domain: Value)
    | DeleteQueue(queue: Value, domain: Value)
    | DeleteUser(user: Value, domain: Value)
    | DeleteDomain(domain: Value)

  /** What the remote system holds: domains, users and call queues (each
      scoped by a domain), and agents (scoped by a queue and its domain). */
  datatype State = State(
    domains: set<Value>,
    users: set<(Value, Value)>,
    queues: set<(Value, Value)>,
    agents: set<(Value, Value, Value)>)

  /** Every user lives in a domain that exists. */
  predicate Consistent(s: State) {
    forall u :: u in s.users ==> u.1 in s.domains
  }

  /** The effect of one request on the remote state. */
  function Apply(s: State, a: Action): State {
    match a
    case CreateDomain(d) => s.(domains := s.domains + {d})
    case CreateUser(u, d) => s.(users := s.users + {(u, d)})
    case CreateQueue(q, d) => s.(queues := s.queues + {(q, d)})
    case DeleteAgent(ag, q, d) => s.(agents := s.agents - {(ag, q, d)})
    case DeleteQueue(q, d) => s.(queues := s.queues - {(q, d)})
    case DeleteUser(u, d) => s.(users := s.users - {(u, d)})
    case DeleteDomain(d) => s.(domains := s.domains - {d})
  }

  /** The effect of a sequence of requests, issued in order. */
  function Run(s: State, calls: seq<Action>): State
    decreases |calls|
  {
    if calls == [] then s else Run(Apply(s, calls[0]), calls[1..])
  }

  lemma {:induction false} RunAppend(s: State, first: seq<Action>, second: seq<Action>)
    ensures Run(s, first + second) == Run(Run(s, first), second)
    decreases |first|
  {
    if first == [] {
      assert first + second == second;
    } else {
      assert (first + second)[1..] == first[1..] + second;
      RunAppend(Apply(s, first[0]), first[1..], second);
    }
  }

  /**
   * The remote system together with the log of the requests sent to it.  The
   * object invariant says the current state is the state the session started
   * from with every logged request applied in order.
   */
  class RemoteSystem {
    var domains: set<Value>
    var users: set<(Value, Value)>
    var queues: set<(Value, Value)>
    var agents: set<(Value, Value, Value)>
    var log: seq<Action>
    ghost var initial: State

    function View(): State
      reads this
    {
      State(domains, users, queues, agents)
    }

    ghost predicate Valid()
      reads this
    {
      View() == Run(initial, log)
    }

    constructor (s: State)
      ensures Valid() && View() == s && log == [] && initial == s
    {
      domains, users, queues, agents := s.domains, s.users, s.queues, s.agents;
      log := [];
      initial := s;
    }

    /** Record request `a` and its effect. */
    method Issue(a: Action)
      requires Valid()
      modifies this
      ensures Valid() && initial == old(initial)
      ensures View() == Apply(old(View()), a) && log == old(log) + [a]
    {
      var s := Apply(View(), a);
      domains, users, queues, agents := s.domains, s.users, s.queues, s.agents;
      RunAppend(initial, log, [a]);
      log := log + [a];
    }

    /** `check_if_domain_exists`: a read, no request is logged. */
    method CheckIfDomainExists(domain: Value) returns (answer: bool)
      ensures answer <==> domain in domains
    {
      answer := domain in domains;
    }

    /** `check_if_user_exists`: a read, no request is logged. */
    method CheckIfUserExists(user: Value, domain: Value) returns (answer: bool)
      ensures answer <==> (user, domain) in users
    {
      answer := (user, domain) in users;
    }

    /** `build_domain`. */
    method BuildDomain(domain: Value)
      requires Valid()
      modifies this
      ensures Valid() && initial == old(initial)
      ensures View() == Apply(old(View()), CreateDomain(domain)) && log == old(log) + [CreateDomain(domain)]
    {
      Issue(CreateDomain(domain));
    }

    /** `delete_domain`. */
    method DeleteDomain(domain: Value)
      requires Valid()
      modifies this
      ensures Valid() && initial == old(initial)
      ensures View() == Apply(old(View()), Action.DeleteDomain(domain)) && log == old(log) + [Action.DeleteDomain(domain)]
    {
      Issue(Action.DeleteDomain(domain));
    }

    /** `build_user`. */
    method BuildUser(user: Value, domain: Value)
      requires Valid()
      modifies this
      ensures Valid() && initial == old(initial)
      ensures View() == Apply(old(View()), CreateUser(user, domain)) && log == old(log) + [CreateUser(user, domain)]
    {
      Issue(CreateUser(user, domain));
    }

    /** `delete_user`. */
    method DeleteUser(user: Value, domain: Value)
      requires Valid()
      modifies this
      ensures Valid() && initial == old(initial)
      ensures View() == Apply(old(View()), Action.DeleteUser(user, domain)) && log == old(log) + [Action.DeleteUser(user, domain)]
    {
      Issue(Action.DeleteUser(user, domain));
    }

    /** `build_callqueue`. */
    method BuildCallqueue(queue: Value, domain: Value)
      requires Valid()
      modifies this
      ensures Valid() && initial == old(initial)
      ensures View() == Apply(old(View()), CreateQueue(queue, domain)) && log == old(log) + [CreateQueue(queue, domain)]
    {
      Issue(CreateQueue(queue, domain));
    }

    /** `delete_callqueue`. */
    method DeleteCallqueue(queue: Value, domain: Value)
      requires Valid()
      modifies this
      ensures Valid() && initial == old(initial)
      ensures View() == Apply(old(View()), DeleteQueue(queue, domain)) && log == old(log) + [DeleteQueue(queue, domain)]
    {
      Issue(DeleteQueue(queue, domain));
    }

    /** `delete_queue_agents`: detach one agent from a queue. */
    method DeleteQueueAgents(agentId: Value, queue: Value, domain: Value)
      requires Valid()
      modifies this
      ensures Valid() && initial == old(initial)
      ensures View() == Apply(old(View()), DeleteAgent(agentId, queue, domain))
      ensures log == old(log) + [DeleteAgent(agentId, queue, domain)]
    {
      Issue(DeleteAgent(agentId, queue, domain));
    }
  }
}
