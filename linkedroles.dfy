/**
 * `get_events_with_linked_contributions`: for one user, the roles they hold
 * in each event through its contributions, collected into a `defaultdict`
 * of sets. The two queries become their results: the user's contribution
 * principal entries (with the event of each contribution) and the events
 * in which the user is a person linked to a contribution.
 */
module LinkedRoles {

  datatype Role = ContributionSubmission | ContributionManager | ContributionAccess | Contributor

  /** One `ContributionPrincipal` entry of the user. */
  datatype Principal = Principal(eventId: int, permissions: seq<string>, fullAccess: bool, readAccess: bool)

  type RoleMap = map<int, set<Role>>

  /** The roles one principal entry grants. */
  function Granted(p: Principal): set<Role> {
    (if "submit" in p.permissions then {ContributionSubmission} else {})
    + (if p.fullAccess then {ContributionManager} else {})
    + (if p.readAccess then {ContributionAccess} else {})
  }

  /** A principal entry grants submission for the `submit` permission,
      management for full access, access for read access, and never the
      contributor role. */
  lemma GrantedSpec(p: Principal)
    ensures ContributionSubmission in Granted(p) <==> "submit" in p.permissions
    ensures ContributionManager in Granted(p) <==> p.fullAccess
    ensures ContributionAccess in Granted(p) <==> p.readAccess
    ensures Contributor !in Granted(p)
  {
  }

  /** `data[k]` on a `defaultdict(set)`: a missing key reads as the empty set. */
  function Roles(data: RoleMap, k: int): set<Role> {
    if k in data then data[k] else {}
  }

  /** `data[k]` followed by adding `roles`: the key is created even when
      nothing is added. */
  function AddRoles(data: RoleMap, k: int, roles: set<Role>): RoleMap {
    data[k := Roles(data, k) + roles]
  }

  /** The map after `add_acl_data` has seen the first principal entries. */
  function AfterAcl(data: RoleMap, ps: seq<Principal>): RoleMap {
    if ps == [] then data
    else
      var last := ps[|ps| - 1];
      AddRoles(AfterAcl(data, ps[..|ps| - 1]), last.eventId, Granted(last))
  }

  /** The map after `add_contrib_data` has seen the first events. */
  function AfterContrib(data: RoleMap, events: seq<int>): RoleMap {
    if events == [] then data
    else AddRoles(AfterContrib(data, events[..|events| - 1]), events[|events| - 1], {Contributor})
  }

  /** What the function returns. */
  function LinkedRoles(ps: seq<Principal>, events: seq<int>): RoleMap {
    AfterContrib(AfterAcl(map[], ps), events)
  }

  /** The two loops over the query results, updating one map of role sets. */
  method EventsWithLinkedContributions(ps: seq<Principal>, events: seq<int>) returns (data: RoleMap)
    ensures data == LinkedRoles(ps, events)
  {
    data := map[];
    var i := 0;
    while i < |ps|
      invariant 0 <= i <= |ps|
      invariant data == AfterAcl(map[], ps[..i])
    {
      var p := ps[i];
      var roles := Roles(data, p.eventId);
      if "submit" in p.permissions {
        roles := roles + {ContributionSubmission};
      }
      if p.fullAccess {
        roles := roles + {ContributionManager};
      }
      if p.readAccess {
        roles := roles + {ContributionAccess};
      }
      assert roles == Roles(data, p.eventId) + Granted(p);
      data := data[p.eventId := roles];
      assert ps[..i + 1][..i] == ps[..i];
      assert ps[..i + 1][i] == p;
      i := i + 1;
    }
    assert ps[..i] == ps;
    ghost var acl := data;
    var j := 0;
    while j < |events|
      invariant 0 <= j <= |events|
      invariant data == AfterContrib(acl, events[..j])
    {
      data := data[events[j] := Roles(data, events[j]) + {Contributor}];
      assert events[..j + 1][..j] == events[..j];
      j := j + 1;
    }
    assert events[..j] == events;
  }

  /** Entry `i` is for event `k`. */
  predicate EntryFor(ps: seq<Principal>, i: int, k: int) {
    0 <= i < |ps| && ps[i].eventId == k
  }

  /** Entry `i` is for event `k` and grants role `r`. */
  predicate GrantsAt(ps: seq<Principal>, i: int, k: int, r: Role) {
    EntryFor(ps, i, k) && r in Granted(ps[i])
  }

  /** The ACL pass keeps every key it finds and adds the event of every
      principal entry, even one that grants nothing. */
  lemma {:induction false} AfterAclKeys(data: RoleMap, ps: seq<Principal>, k: int)
    ensures k in AfterAcl(data, ps) <==> k in data || exists i :: EntryFor(ps, i, k)
  {
    if ps != [] {
      var p := ps[..|ps| - 1];
      AfterAclKeys(data, p, k);
      if ps[|p|].eventId == k {
        assert EntryFor(ps, |p|, k);
      }
      if exists i :: EntryFor(p, i, k) {
        var i :| EntryFor(p, i, k);
        assert EntryFor(ps, i, k);
      }
      if exists i :: EntryFor(ps, i, k) {
        var i :| EntryFor(ps, i, k);
        if i < |p| {
          assert EntryFor(p, i, k);
        }
      }
    }
  }

  /** The ACL pass keeps every role it finds and adds exactly the roles the
      entries for an event grant. */
  lemma {:induction false} AfterAclRoles(data: RoleMap, ps: seq<Principal>, k: int, r: Role)
    ensures r in Roles(AfterAcl(data, ps), k) <==> r in Roles(data, k) || exists i :: GrantsAt(ps, i, k, r)
  {
    if ps != [] {
      var p := ps[..|ps| - 1];
      AfterAclRoles(data, p, k, r);
      if EntryFor(ps, |p|, k) && r in Granted(ps[|p|]) {
        assert GrantsAt(ps, |p|, k, r);
      }
      if exists i :: GrantsAt(p, i, k, r) {
        var i :| GrantsAt(p, i, k, r);
        assert GrantsAt(ps, i, k, r);
      }
      if exists i :: GrantsAt(ps, i, k, r) {
        var i :| GrantsAt(ps, i, k, r);
        if i < |p| {
          assert GrantsAt(p, i, k, r);
        }
      }
    }
  }

  /** The contributor pass adds a key and the contributor role for every
      listed event and nothing else. */
  lemma {:induction false} AfterContribSpec(data: RoleMap, events: seq<int>, k: int, r: Role)
    ensures k in AfterContrib(data, events) <==> k in data || k in events
    ensures r in Roles(AfterContrib(data, events), k) <==>
            r in Roles(data, k) || (r == Contributor && k in events)
  {
    if events != [] {
      var p := events[..|events| - 1];
      AfterContribSpec(data, p, k, r);
      assert events == p + [events[|events| - 1]];
    }
  }

  /** The events in the result are exactly those of some principal entry or
      of some person link, and each holds exactly the roles granted there. */
  lemma LinkedRolesSpec(ps: seq<Principal>, events: seq<int>, k: int, r: Role)
    ensures k in LinkedRoles(ps, events) <==> (exists i :: EntryFor(ps, i, k)) || k in events
    ensures r in Roles(LinkedRoles(ps, events), k) <==>
            (exists i :: GrantsAt(ps, i, k, r)) || (r == Contributor && k in events)
  {
    AfterAclKeys(map[], ps, k);
    AfterAclRoles(map[], ps, k, r);
    AfterContribSpec(AfterAcl(map[], ps), events, k, r);
  }

  /** Roles are only ever added: every key and role of the starting map
      survives both passes. */
  lemma RolesNeverRemoved(data: RoleMap, ps: seq<Principal>, events: seq<int>, k: int)
    requires k in data
    ensures var out := AfterContrib(AfterAcl(data, ps), events);
            k in out && data[k] <= out[k]
  {
    var acl := AfterAcl(data, ps);
    forall r | r in data[k] ensures r in Roles(AfterContrib(acl, events), k) {
      AfterAclRoles(data, ps, k, r);
      AfterContribSpec(acl, events, k, r);
    }
    AfterAclKeys(data, ps, k);
    AfterContribSpec(acl, events, k, Contributor);
  }

  /** A principal entry with none of the three rights still puts its event
      into the result, with no role from that entry. */
  lemma EmptyGrantKeepsEvent(ps: seq<Principal>, events: seq<int>, i: nat)
    requires i < |ps| && Granted(ps[i]) == {}
    ensures ps[i].eventId in LinkedRoles(ps, events)
  {
    LinkedRolesSpec(ps, events, ps[i].eventId, Contributor);
    assert EntryFor(ps, i, ps[i].eventId);
  }
}
