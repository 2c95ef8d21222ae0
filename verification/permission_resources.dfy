/** The resources that a user's permission records allow. */
module PermissionResources {
  import opened Sequences
  import opened Text
  import opened Wrappers

  /*** Allowed resources ***/

  /** A permission record; an empty string stands for a reference that is missing. */
  datatype Permission = Permission(
    scope: Option<string>, sourceId: string, catalogEntryId: string, ragNamespace: string,
    structuredResource: string, joinPolicyRef: string)

  datatype Resources = Resources(
    scopes: seq<string>, sourceIds: seq<string>, catalogEntryIds: seq<string>, ragNamespaces: seq<string>,
    structuredResources: seq<string>, joinPolicyRefs: seq<string>)

  const NO_RESOURCES := Resources([], [], [], [], [], [])

  predicate HasScope(p: Permission) {
    p.scope.Some? && !Blank(p.scope.value)
  }

  /** A scope and the references that go with it. */
  datatype Grant = Grant(
    scope: string, sourceId: string, catalogEntryId: string, ragNamespace: string,
    structuredResource: string, joinPolicyRef: string)

  function Or(s: string, default: string): string {
    if s == "" then default else s
  }

  /** Missing references are derived from the scope. */
  function GrantOf(p: Permission): Grant {
    var scope := if p.scope.Some? then p.scope.value else "";
    Grant(
      scope,
      Or(p.sourceId, "scope:" + scope),
      Or(p.catalogEntryId, "catalog:" + scope),
      Or(p.ragNamespace, scope),
      Or(p.structuredResource, "structured:" + scope),
      Or(p.joinPolicyRef, "join:" + scope))
  }

  function GrantScope(): Grant -> string {
    (g: Grant) => g.scope
  }

  function ResourcesOf(grants: seq<Grant>): Resources {
    Resources(
      Map(grants, GrantScope()),
      Map(grants, (g: Grant) => g.sourceId),
      Map(grants, (g: Grant) => g.catalogEntryId),
      Map(grants, (g: Grant) => g.ragNamespace),
      Map(grants, (g: Grant) => g.structuredResource),
      Map(grants, (g: Grant) => g.joinPolicyRef))
  }

  /** The first grant of each scope, in order. */
  function Leading(permissions: seq<Permission>, grantOf: Permission -> Grant): seq<Grant> {
    FirstBy(Map(permissions, grantOf), GrantScope(), {})
  }

  function AllowedBy(permissions: seq<Permission>, grantOf: Permission -> Grant): Option<Resources> {
    if forall p | p in permissions :: HasScope(p) then Some(ResourcesOf(Leading(permissions, grantOf))) else None
  }

  function Allowed(permissions: seq<Permission>): Option<Resources> {
    AllowedBy(permissions, GrantOf)
  }

  function Added(r: Resources, g: Grant): Resources {
    Resources(
      r.scopes + [g.scope], r.sourceIds + [g.sourceId], r.catalogEntryIds + [g.catalogEntryId],
      r.ragNamespaces + [g.ragNamespace], r.structuredResources + [g.structuredResource],
      r.joinPolicyRefs + [g.joinPolicyRef])
  }

  lemma AddedIsNext(grants: seq<Grant>, g: Grant)
    ensures ResourcesOf(grants + [g]) == Added(ResourcesOf(grants), g)
  {
  }

  /** None: a record without a usable scope. */
  method BuildAllowedResourceMap(permissions: seq<Permission>) returns (r: Option<Resources>)
    ensures r == Allowed(permissions)
  {
    r := CollectResources(permissions, GrantOf);
  }

  method CollectResources(permissions: seq<Permission>, grantOf: Permission -> Grant) returns (r: Option<Resources>)
    ensures r == AllowedBy(permissions, grantOf)
  {
    var resources := NO_RESOURCES;
    var seen: set<string> := {};
    ghost var grants := Map(permissions, grantOf);
    ghost var leading: seq<Grant> := [];
    for i := 0 to |permissions|
      invariant forall p | p in permissions[..i] :: HasScope(p)
      invariant resources == ResourcesOf(leading)
      invariant FirstBy(grants, GrantScope(), {}) == leading + FirstBy(grants[i..], GrantScope(), seen)
    {
      if !HasScope(permissions[i]) {
        assert permissions[i] in permissions;
        return None;
      }
      var g := grantOf(permissions[i]);
      FirstByRound(grants, i, GrantScope(), seen, leading);
      if g.scope in seen {
        continue;
      }
      AddedIsNext(leading, g);
      seen := seen + {g.scope};
      resources := Added(resources, g);
      leading := leading + [g];
    }
    assert permissions[..|permissions|] == permissions && leading + [] == leading;
    r := Some(resources);
  }

  /** The six lists read across. */
  ghost predicate At(r: Resources, k: nat, g: Grant) {
    && k < |r.scopes| == |r.sourceIds| == |r.catalogEntryIds|
    && |r.scopes| == |r.ragNamespaces| == |r.structuredResources| == |r.joinPolicyRefs|
    && g == Grant(
      r.scopes[k], r.sourceIds[k], r.catalogEntryIds[k], r.ragNamespaces[k], r.structuredResources[k],
      r.joinPolicyRefs[k])
  }

  /** The first grant of its scope. */
  ghost predicate IsFirst(grants: seq<Grant>, g: Grant) {
    exists i: nat :: New(grants, GrantScope(), i) && grants[i] == g
  }

  lemma Listed(grants: seq<Grant>)
    ensures forall g :: g in grants <==> exists k: nat :: At(ResourcesOf(grants), k, g)
  {
    var r := ResourcesOf(grants);
    forall g
      ensures g in grants <==> exists k: nat :: At(r, k, g)
    {
      if g in grants {
        var k :| 0 <= k < |grants| && grants[k] == g;
        assert At(r, k, g);
      }
      if k: nat :| At(r, k, g) {
        assert grants[k] == g;
      }
    }
  }

  lemma FirstsAreKept(grants: seq<Grant>)
    ensures var l := FirstBy(grants, GrantScope(), {});
      && Distinct(Map(l, GrantScope()))
      && (forall g :: g in l <==> IsFirst(grants, g))
      && (l == [] <==> grants == [])
  {
    assert grants[..|grants|] == grants;
    FirstByDistinct(grants, GrantScope(), {});
    FirstByIsSelection(grants, |grants|, GrantScope());
    SelectedAreElements(grants, (i: nat) => New(grants, GrantScope(), i));
  }

  /**
   Each scope is listed once, at one place in all six lists, with the references of its first
   record; the map is empty only if there are no records.
   */
  lemma ResourcesAreExact(permissions: seq<Permission>, r: Resources)
    requires Allowed(permissions) == Some(r)
    ensures Distinct(r.scopes) && (r.scopes == [] <==> permissions == [])
    ensures forall g :: (exists k: nat :: At(r, k, g)) <==> IsFirst(Map(permissions, GrantOf), g)
  {
    FirstsAreKept(Map(permissions, GrantOf));
    Listed(Leading(permissions, GrantOf));
  }

  /** The first record with its scope. */
  ghost predicate IsLeading(permissions: seq<Permission>, i: nat) {
    i < |permissions| && forall j | 0 <= j < i :: permissions[j].scope != permissions[i].scope
  }

  lemma LeadingPositions(permissions: seq<Permission>, grantOf: Permission -> Grant) returns (at: seq<nat>)
    requires forall p | p in permissions :: p.scope == Some(grantOf(p).scope)
    ensures forall i: nat :: i in at <==> IsLeading(permissions, i)
    ensures forall j, k | 0 <= j < k < |at| :: at[j] < at[k]
    ensures var l := Leading(permissions, grantOf);
      |l| == |at| && forall k | 0 <= k < |at| :: at[k] < |permissions| && l[k] == grantOf(permissions[at[k]])
  {
    var grants := Map(permissions, grantOf);
    var first := (i: nat) => New(grants, GrantScope(), i);
    FirstByIsSelection(grants, |grants|, GrantScope());
    assert grants[..|grants|] == grants;
    at := SelectedPositions(grants, first);
    forall i: nat | i < |grants|
      ensures first(i) <==> IsLeading(permissions, i)
    {
      assert forall j | 0 <= j <= i :: permissions[j].scope == Some(GrantScope()(grants[j]));
    }
  }

  /** The record's own references, each in its list, or else the ones derived from the scope. */
  predicate ListsRecord(r: Resources, k: nat, p: Permission)
    requires p.scope.Some?
    requires k < |r.scopes| == |r.sourceIds| == |r.catalogEntryIds|
    requires |r.scopes| == |r.ragNamespaces| == |r.structuredResources| == |r.joinPolicyRefs|
  {
    var scope := p.scope.value;
    && r.scopes[k] == scope
    && r.sourceIds[k] == (if p.sourceId != "" then p.sourceId else "scope:" + scope)
    && r.catalogEntryIds[k] == (if p.catalogEntryId != "" then p.catalogEntryId else "catalog:" + scope)
    && r.ragNamespaces[k] == (if p.ragNamespace != "" then p.ragNamespace else scope)
    && r.structuredResources[k] == (if p.structuredResource != "" then p.structuredResource else "structured:" + scope)
    && r.joinPolicyRefs[k] == (if p.joinPolicyRef != "" then p.joinPolicyRef else "join:" + scope)
  }

  lemma RecordIsListed(grants: seq<Grant>, k: nat, p: Permission)
    requires k < |grants| && grants[k] == GrantOf(p) && p.scope.Some?
    ensures ListsRecord(ResourcesOf(grants), k, p)
  {
  }

  /** Every record needs a scope with a visible character. */
  lemma ScopesAreRequired(permissions: seq<Permission>)
    ensures Allowed(permissions).None? <==>
      exists p | p in permissions :: p.scope == None || !Visible(p.scope.value)
  {
    forall p | p in permissions && p.scope.Some?
      ensures Blank(p.scope.value) <==> !Visible(p.scope.value)
    {
      VisibleIsNotBlank(p.scope.value);
    }
  }

  /** The first record of each scope is listed, in order, and nothing else. */
  lemma LeadingRecordsAreListed(permissions: seq<Permission>, r: Resources) returns (at: seq<nat>)
    requires Allowed(permissions) == Some(r)
    ensures forall i: nat :: i in at <==> IsLeading(permissions, i)
    ensures forall j, k | 0 <= j < k < |at| :: at[j] < at[k]
    ensures |r.scopes| == |r.sourceIds| == |r.catalogEntryIds| == |at|
    ensures |r.ragNamespaces| == |r.structuredResources| == |r.joinPolicyRefs| == |at|
    ensures forall k | 0 <= k < |at| ::
      at[k] < |permissions| && permissions[at[k]].scope.Some? && ListsRecord(r, k, permissions[at[k]])
  {
    at := LeadingPositions(permissions, GrantOf);
    forall k | 0 <= k < |at|
      ensures permissions[at[k]].scope.Some? && ListsRecord(r, k, permissions[at[k]])
    {
      assert HasScope(permissions[at[k]]);
      RecordIsListed(Leading(permissions, GrantOf), k, permissions[at[k]]);
    }
  }
}
