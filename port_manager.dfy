/** Reserving a local TCP port for a container user: a netsh URL ACL that
    lets the user listen on the port, then a firewall rule that opens it.
    The two collaborators are rule tables with a log of the calls they
    received; which calls fail is fixed by an oracle. */
module LocalTcpPorts {
  import opened Wrappers
  import Text

  /** An outbound rule as the caller describes it; its fields are not part
      of this model. */
  datatype FirewallRuleSpec = FirewallRuleSpec(description: string)

  datatype FirewallRule =
    | InboundPort(port: int, userName: string)
    | Outbound(userName: string, spec: FirewallRuleSpec)

  datatype NetShCall = AddRule(port: int, userName: string) | DeleteRule(port: int)

  datatype FirewallCall =
    | OpenPort(port: int, userName: string)
    | ClosePort(userName: string)
    | RemoveAllFirewallRules(userName: string)
    | CreateOutboundFirewallRule(userName: string, spec: FirewallRuleSpec)

  datatype FirewallError = OpenPortFailed(port: int, userName: string)

  datatype PortError =
    | ArgumentNull(paramName: string)
    | ReserveFailed(port: int, userName: string)
    | FirewallFailed(port: int, userName: string, inner: FirewallError)

  // ---------------------------------------------------------------------
  // The rule tables.

  /** The ACL table after `http add urlacl` for `port`. */
  function WithAcl(acls: map<int, string>, port: int, userName: string): (r: map<int, string>)
    ensures port in r && r[port] == userName
    ensures forall p :: p in acls && p != port ==> p in r && r[p] == acls[p]
    ensures r.Keys == acls.Keys + {port}
  {
    acls[port := userName]
  }

  /** The ACL table after `http delete urlacl` for `port`. */
  function WithoutAcl(acls: map<int, string>, port: int): (r: map<int, string>)
    ensures port !in r
    ensures forall p :: p in acls && p != port ==> p in r && r[p] == acls[p]
    ensures r.Keys == acls.Keys - {port}
  {
    acls - {port}
  }

  /** The firewall rules after `ClosePort(userName)`: the user's inbound
      port rules go, every other rule stays. */
  function WithoutInbound(rules: set<FirewallRule>, userName: string): (r: set<FirewallRule>)
    ensures forall rule :: rule in r <==> rule in rules && !(rule.InboundPort? && rule.userName == userName)
  {
    set rule | rule in rules && !(rule.InboundPort? && rule.userName == userName)
  }

  /** The firewall rules after `RemoveAllFirewallRules(userName)`: nothing
      of the user's stays, nothing of anyone else's goes. */
  function WithoutUser(rules: set<FirewallRule>, userName: string): (r: set<FirewallRule>)
    ensures forall rule :: rule in r <==> rule in rules && rule.userName != userName
  {
    set rule | rule in rules && rule.userName != userName
  }

  /** Releasing a port undoes reserving it: the ACL entry is gone and the
      user's inbound rules are what closing them would have left anyway. */
  lemma ReleaseUndoesReserve(acls: map<int, string>, rules: set<FirewallRule>, port: int, userName: string)
    ensures WithoutAcl(WithAcl(acls, port, userName), port) == WithoutAcl(acls, port)
    ensures WithoutInbound(rules + {InboundPort(port, userName)}, userName) == WithoutInbound(rules, userName)
  {
    assert WithoutAcl(WithAcl(acls, port, userName), port).Keys == WithoutAcl(acls, port).Keys;
  }

  /** Removing all of a user's rules also closes the user's ports. */
  lemma RemoveAllClosesPorts(rules: set<FirewallRule>, userName: string)
    ensures WithoutUser(rules, userName) <= WithoutInbound(rules, userName)
    ensures WithoutUser(WithoutInbound(rules, userName), userName) == WithoutUser(rules, userName)
  {
  }

  /** The port `ReserveLocalPort` uses: the one asked for, or a free one
      when 0 was asked for. */
  function ChosenPort(port: int, freePort: int): (r: int)
    ensures port != 0 ==> r == port
    ensures port == 0 ==> r == freePort
  {
    if port == 0 then freePort else port
  }

  // ---------------------------------------------------------------------
  // The collaborators.

  /** The URL ACL table netsh edits; `AddRule` answers false for the ports
      in `refused`. */
  class NetShRunner {
    const refused: set<int>
    var acls: map<int, string>
    var calls: seq<NetShCall>

    constructor (refused: set<int>, acls: map<int, string>)
      ensures this.refused == refused && this.acls == acls && calls == []
    {
      this.refused := refused;
      this.acls := acls;
      calls := [];
    }

    method AddRule(port: int, userName: string) returns (added: bool)
      modifies this
      ensures calls == old(calls) + [NetShCall.AddRule(port, userName)]
      ensures added <==> port !in refused
      ensures acls == if added then WithAcl(old(acls), port, userName) else old(acls)
    {
      calls := calls + [NetShCall.AddRule(port, userName)];
      added := port !in refused;
      if added {
        acls := WithAcl(acls, port, userName);
      }
    }

    method DeleteRule(port: int)
      modifies this
      ensures calls == old(calls) + [NetShCall.DeleteRule(port)]
      ensures acls == WithoutAcl(old(acls), port)
    {
      calls := calls + [NetShCall.DeleteRule(port)];
      acls := WithoutAcl(acls, port);
    }
  }

  /** The firewall's rules; `OpenPort` throws for the ports in `refused`. */
  class FirewallManager {
    const refused: set<int>
    var rules: set<FirewallRule>
    var calls: seq<FirewallCall>

    constructor (refused: set<int>, rules: set<FirewallRule>)
      ensures this.refused == refused && this.rules == rules && calls == []
    {
      this.refused := refused;
      this.rules := rules;
      calls := [];
    }

    method OpenPort(port: int, userName: string) returns (r: Result<(), FirewallError>)
      modifies this
      ensures calls == old(calls) + [FirewallCall.OpenPort(port, userName)]
      ensures r.Err? <==> port in refused
      ensures r.Err? ==> r.error == OpenPortFailed(port, userName) && rules == old(rules)
      ensures r.Ok? ==> rules == old(rules) + {InboundPort(port, userName)}
    {
      calls := calls + [FirewallCall.OpenPort(port, userName)];
      if port in refused {
        return Err(OpenPortFailed(port, userName));
      }
      rules := rules + {InboundPort(port, userName)};
      return Ok(());
    }

    method ClosePort(userName: string)
      modifies this
      ensures calls == old(calls) + [FirewallCall.ClosePort(userName)]
      ensures rules == WithoutInbound(old(rules), userName)
    {
      calls := calls + [FirewallCall.ClosePort(userName)];
      rules := WithoutInbound(rules, userName);
    }

    method RemoveAllFirewallRules(userName: string)
      modifies this
      ensures calls == old(calls) + [FirewallCall.RemoveAllFirewallRules(userName)]
      ensures rules == WithoutUser(old(rules), userName)
    {
      calls := calls + [FirewallCall.RemoveAllFirewallRules(userName)];
      rules := WithoutUser(rules, userName);
    }

    method CreateOutboundFirewallRule(userName: string, spec: FirewallRuleSpec)
      modifies this
      ensures calls == old(calls) + [FirewallCall.CreateOutboundFirewallRule(userName, spec)]
      ensures rules == old(rules) + {Outbound(userName, spec)}
    {
      calls := calls + [FirewallCall.CreateOutboundFirewallRule(userName, spec)];
      rules := rules + {Outbound(userName, spec)};
    }
  }

  // ---------------------------------------------------------------------
  // The manager.

  class LocalTcpPortManager {
    const firewallManager: FirewallManager
    const netShRunner: NetShRunner

    constructor (firewallManager: FirewallManager, netShRunner: NetShRunner)
      ensures this.firewallManager == firewallManager && this.netShRunner == netShRunner
    {
      this.firewallManager := firewallManager;
      this.netShRunner := netShRunner;
    }

    /** Reserve `port` (a free one, `freePort`, when 0 is asked for) for
        the user: the ACL first, and the firewall only once the ACL is in
        place. A failed firewall step leaves the ACL in place. */
    method ReserveLocalPort(port: int, userName: Option<string>, freePort: int) returns (r: Result<int, PortError>)
      modifies netShRunner, firewallManager
      ensures Text.IsNullOrWhiteSpace(userName) ==>
                && r == Err(ArgumentNull("userName"))
                && unchanged(netShRunner) && unchanged(firewallManager)
      ensures !Text.IsNullOrWhiteSpace(userName) ==>
                var p := ChosenPort(port, freePort);
                var user := userName.value;
                && netShRunner.calls == old(netShRunner.calls) + [NetShCall.AddRule(p, user)]
                && (p in netShRunner.refused ==>
                      && r == Err(ReserveFailed(p, user))
                      && netShRunner.acls == old(netShRunner.acls)
                      && unchanged(firewallManager))
                && (p !in netShRunner.refused ==>
                      && netShRunner.acls == WithAcl(old(netShRunner.acls), p, user)
                      && firewallManager.calls == old(firewallManager.calls) + [FirewallCall.OpenPort(p, user)])
                && (p !in netShRunner.refused && p in firewallManager.refused ==>
                      && r == Err(FirewallFailed(p, user, OpenPortFailed(p, user)))
                      && firewallManager.rules == old(firewallManager.rules))
                && (p !in netShRunner.refused && p !in firewallManager.refused ==>
                      && r == Ok(p)
                      && firewallManager.rules == old(firewallManager.rules) + {InboundPort(p, user)})
      ensures r.Ok? ==>
                && r.value in netShRunner.acls && netShRunner.acls[r.value] == userName.value
                && InboundPort(r.value, userName.value) in firewallManager.rules
    {
      if Text.IsNullOrWhiteSpace(userName) {
        return Err(ArgumentNull("userName"));
      }
      var user := userName.value;
      var p := port;
      if p == 0 {
        p := freePort;
      }
      var added := netShRunner.AddRule(p, user);
      if !added {
        return Err(ReserveFailed(p, user));
      }
      var outcome := firewallManager.OpenPort(p, user);
      if outcome.Err? {
        return Err(FirewallFailed(p, user, outcome.error));
      }
      return Ok(p);
    }

    /** Release the user's port: the ACL only when a port is given, the
        user's firewall ports always. */
    method ReleaseLocalPort(port: Option<int>, userName: Option<string>) returns (r: Result<(), PortError>)
      modifies netShRunner, firewallManager
      ensures Text.IsNullOrWhiteSpace(userName) ==>
                && r == Err(ArgumentNull("userName"))
                && unchanged(netShRunner) && unchanged(firewallManager)
      ensures !Text.IsNullOrWhiteSpace(userName) ==>
                && r == Ok(())
                && netShRunner.calls == old(netShRunner.calls) + (if port.Some? then [NetShCall.DeleteRule(port.value)] else [])
                && netShRunner.acls == (if port.Some? then WithoutAcl(old(netShRunner.acls), port.value) else old(netShRunner.acls))
                && firewallManager.calls == old(firewallManager.calls) + [FirewallCall.ClosePort(userName.value)]
                && firewallManager.rules == WithoutInbound(old(firewallManager.rules), userName.value)
    {
      if Text.IsNullOrWhiteSpace(userName) {
        return Err(ArgumentNull("userName"));
      }
      if port.Some? {
        netShRunner.DeleteRule(port.value);
      }
      firewallManager.ClosePort(userName.value);
      return Ok(());
    }

    method RemoveFirewallRules(userName: string)
      modifies firewallManager
      ensures firewallManager.calls == old(firewallManager.calls) + [FirewallCall.RemoveAllFirewallRules(userName)]
      ensures firewallManager.rules == WithoutUser(old(firewallManager.rules), userName)
    {
      firewallManager.RemoveAllFirewallRules(userName);
    }

    method CreateOutboundFirewallRule(userName: string, spec: FirewallRuleSpec)
      modifies firewallManager
      ensures firewallManager.calls == old(firewallManager.calls) + [FirewallCall.CreateOutboundFirewallRule(userName, spec)]
      ensures firewallManager.rules == old(firewallManager.rules) + {Outbound(userName, spec)}
    {
      firewallManager.CreateOutboundFirewallRule(userName, spec);
    }
  }
}
