// Domain policies: a user may reach a host when every list named in the user's own policy and in
// the global policy is loaded and does not contain it.

module Policy {
  datatype Policy = Policy(name: string, domains: seq<string>)
  datatype Blacklist = Blacklist(name: string, hosts: set<string>)

  const GLOBAL: string := "<global>"

  function FindPolicy(policies: seq<Policy>, user: string): (i: nat)
    ensures i <= |policies|
    ensures i < |policies| ==> policies[i].name == user
    ensures forall k :: 0 <= k < i ==> policies[k].name != user
  {
    if policies == [] || policies[0].name == user then 0 else 1 + FindPolicy(policies[1..], user)
  }

  // The list names of the first policy of that name; none when there is no policy.
  function Domains(policies: seq<Policy>, user: string): seq<string> {
    var i := FindPolicy(policies, user);
    if i < |policies| then policies[i].domains else []
  }

  function FindList(lists: seq<Blacklist>, name: string): (i: nat)
    ensures i <= |lists|
    ensures i < |lists| ==> lists[i].name == name
    ensures forall k :: 0 <= k < i ==> lists[k].name != name
  {
    if lists == [] || lists[0].name == name then 0 else 1 + FindList(lists[1..], name)
  }

  predicate Loaded(lists: seq<Blacklist>, name: string) {
    exists i :: 0 <= i < |lists| && lists[i].name == name
  }

  predicate ListAllows(lists: seq<Blacklist>, name: string, host: string) {
    var i := FindList(lists, name);
    i < |lists| && host !in lists[i].hosts
  }

  predicate Allowed(policies: seq<Policy>, lists: seq<Blacklist>, user: string, host: string) {
    && (forall d :: d in Domains(policies, user) ==> ListAllows(lists, d, host))
    && (forall d :: d in Domains(policies, GLOBAL) ==> ListAllows(lists, d, host))
  }

  class UserPolicyList {
    var policies: seq<Policy>

    constructor ()
      ensures policies == []
    {
      policies := [];
    }

    method AddPolicy(policy: Policy)
      modifies this
      ensures policies == old(policies) + [policy]
    {
      policies := policies + [policy];
    }

    method GetUserDomain(idx: nat, user: string) returns (ok: bool, domain: string)
      ensures ok <==> idx < |Domains(policies, user)|
      ensures ok ==> domain == Domains(policies, user)[idx]
    {
      for k := 0 to |policies|
        invariant forall j :: 0 <= j < k ==> policies[j].name != user
      {
        if policies[k].name == user {
          assert FindPolicy(policies, user) == k;
          ok, domain := GetDomain(policies[k], idx);
          return;
        }
      }
      return false, "";
    }

    static method GetDomain(policy: Policy, idx: nat) returns (ok: bool, domain: string)
      ensures ok <==> idx < |policy.domains|
      ensures ok ==> domain == policy.domains[idx]
    {
      if idx >= |policy.domains| {
        return false, "";
      }
      for i := 0 to |policy.domains|
        invariant i <= idx
      {
        if i == idx {
          return true, policy.domains[i];
        }
      }
      return false, "";
    }
  }

  class BlacklistList {
    var lists: seq<Blacklist>

    constructor ()
      ensures lists == []
    {
      lists := [];
    }

    method AddList(list: Blacklist)
      modifies this
      ensures lists == old(lists) + [list]
    {
      lists := lists + [list];
    }

    method IsAllowedInList(name: string, host: string) returns (ok: bool)
      ensures ok <==> ListAllows(lists, name, host)
    {
      for i := 0 to |lists|
        invariant forall k :: 0 <= k < i ==> lists[k].name != name
      {
        if name == lists[i].name {
          assert FindList(lists, name) == i;
          return host !in lists[i].hosts;
        }
      }
      return false;
    }

    method HasList(name: string) returns (ok: bool)
      ensures ok <==> Loaded(lists, name)
    {
      for i := 0 to |lists|
        invariant forall k :: 0 <= k < i ==> lists[k].name != name
      {
        if name == lists[i].name {
          return true;
        }
      }
      return false;
    }
  }

  // The two indexed, short-circuiting loops of isAllowed; they end because the index outgrows
  // the policy.
  method IsAllowed(userPolicies: UserPolicyList, blacklists: BlacklistList, user: string, host: string)
    returns (allowed: bool)
    ensures allowed <==> Allowed(userPolicies.policies, blacklists.lists, user, host)
  {
    allowed := AllAllow(userPolicies, blacklists, user, host);
    if allowed {
      allowed := AllAllow(userPolicies, blacklists, GLOBAL, host);
    }
  }

  method AllAllow(userPolicies: UserPolicyList, blacklists: BlacklistList, user: string, host: string)
    returns (allowed: bool)
    ensures allowed <==>
      forall d :: d in Domains(userPolicies.policies, user) ==> ListAllows(blacklists.lists, d, host)
  {
    ghost var names := Domains(userPolicies.policies, user);
    var idx := 0;
    var more, domain := userPolicies.GetUserDomain(idx, user);
    while more
      invariant more <==> idx < |names|
      invariant more ==> domain == names[idx]
      invariant idx <= |names|
      invariant forall k :: 0 <= k < idx ==> ListAllows(blacklists.lists, names[k], host)
      decreases |names| - idx
    {
      var ok := blacklists.IsAllowedInList(domain, host);
      if !ok {
        assert domain in names;
        return false;
      }
      idx := idx + 1;
      more, domain := userPolicies.GetUserDomain(idx, user);
    }
    return true;
  }

  // Each list named must be loaded, and its first copy must omit the host.
  lemma ListAllowsMeaning(lists: seq<Blacklist>, name: string, host: string)
    ensures ListAllows(lists, name, host) <==>
      && Loaded(lists, name)
      && forall i :: (0 <= i < |lists| && lists[i].name == name
           && forall k :: 0 <= k < i ==> lists[k].name != name) ==> host !in lists[i].hosts
  {
    var f := FindList(lists, name);
    if f < |lists| {
      assert lists[f].name == name;
    }
  }

  // The order of the names in a policy does not matter.
  lemma OrderIrrelevant(policies: seq<Policy>, shuffled: seq<Policy>, lists: seq<Blacklist>, user: string, host: string)
    requires multiset(Domains(policies, user)) == multiset(Domains(shuffled, user))
    requires multiset(Domains(policies, GLOBAL)) == multiset(Domains(shuffled, GLOBAL))
    ensures Allowed(policies, lists, user, host) <==> Allowed(shuffled, lists, user, host)
  {
    SameMembers(Domains(policies, user), Domains(shuffled, user));
    SameMembers(Domains(policies, GLOBAL), Domains(shuffled, GLOBAL));
  }

  lemma SameMembers(a: seq<string>, b: seq<string>)
    requires multiset(a) == multiset(b)
    ensures forall d :: d in a <==> d in b
  {
    forall d ensures d in a <==> d in b {
      assert d in a <==> d in multiset(a);
      assert d in b <==> d in multiset(b);
    }
  }

  // Naming more lists, in either policy, never turns a denial into a permission.
  lemma MoreListsDenyMore(policies: seq<Policy>, wider: seq<Policy>, lists: seq<Blacklist>, user: string, host: string)
    requires forall d :: d in Domains(policies, user) ==> d in Domains(wider, user)
    requires forall d :: d in Domains(policies, GLOBAL) ==> d in Domains(wider, GLOBAL)
    ensures Allowed(wider, lists, user, host) ==> Allowed(policies, lists, user, host)
  {}
}
