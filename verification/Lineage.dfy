/**
 Scan provenance (coverage.py): four searches over the parents of an observation, on graphs that may
 be cyclic and may name observations that do not exist. URL parsing is done: an observation carries
 the web origin, and an asset the origin or host, that its text denotes.
 */
module Lineage {
  import opened Arithmetic
  import opened Wrappers
  import opened Reachability

  type Id = string

  datatype Kind = Asset | Endpoint | Form | OtherKind

  datatype Origin = Origin(scheme: string, host: string, port: nat)

  /** What an asset value says: a web origin, a host with an optional port, or nothing usable. */
  datatype Claim = OriginClaim(origin: Origin) | HostClaim(host: string, port: Option<nat>) | NoClaim

  datatype Node = Node(kind: Kind, origin: Option<Origin>, claim: Claim, parents: seq<Id>)

  type Items = map<Id, Node>

  /** `_asset_supports_web_origin`. */
  predicate Supports(claim: Claim, origin: Origin) {
    match claim
    case OriginClaim(o) => o == origin
    case HostClaim(host, port) => host == origin.host && (port == None || port == Some(origin.port))
    case NoClaim => false
  }

  /** From a web origin over its host and port to its host: each claim supports more than the one before. */
  lemma ClaimsNest(o: Origin, other: Origin)
    ensures Supports(OriginClaim(o), other) <==> other == o
    ensures Supports(HostClaim(o.host, Some(o.port)), other)
      <==> Supports(OriginClaim(o), Origin(o.scheme, other.host, other.port))
    ensures Supports(HostClaim(o.host, None), other)
      <==> Supports(OriginClaim(o), Origin(o.scheme, other.host, o.port))
    ensures !Supports(NoClaim, other)
  {
  }

  /** Parent links, without those of assets. */
  function Upwards(items: Items): Links<Id> {
    map x | x in items && items[x].kind != Asset :: set p | p in items[x].parents
  }

  /** Parent links, without those of assets and endpoints. */
  function UpToEndpoints(items: Items): Links<Id> {
    map x | x in items && items[x].kind != Asset && items[x].kind != Endpoint :: set p | p in items[x].parents
  }

  lemma UpwardsExpands(items: Items, x: Id, seen: set<Id>)
    ensures Expands(Upwards(items), x, seen, if x in items && items[x].kind != Asset then items[x].parents else [])
  {
  }

  lemma UpToEndpointsExpands(items: Items, x: Id, seen: set<Id>)
    ensures Expands(UpToEndpoints(items), x, seen,
                    if x in items && items[x].kind != Asset && items[x].kind != Endpoint then items[x].parents else [])
  {
  }

  /** What a form's ancestor must satisfy. */
  predicate FormAncestorOk(items: Items, x: Id, origin: Origin, approvedEndpoints: set<Id>) {
    && x in items
    && match items[x].kind
       case Asset => Supports(items[x].claim, origin)
       case Endpoint => x in approvedEndpoints && items[x].origin == Some(origin)
       case Form => items[x].origin == Some(origin)
       case OtherKind => true
  }

  /** What the walk up from a form has found out. */
  ghost predicate Climbed(items: Items, g: Links<Id>, starts: seq<Id>, origin: Origin, approvedEndpoints: set<Id>,
                          pending: seq<Id>, visited: set<Id>, assetFound: bool)
  {
    && g == Upwards(items)
    && Frontier(g, starts, pending, visited)
    && (forall x | x in visited :: FormAncestorOk(items, x, origin, approvedEndpoints))
    && (assetFound <==> exists x :: x in visited && x in items && items[x].kind == Asset)
  }

  lemma ClimbsOn(items: Items, g: Links<Id>, starts: seq<Id>, origin: Origin, approvedEndpoints: set<Id>,
                 pending: seq<Id>, visited: set<Id>, found: bool, parent: Id, more: seq<Id>, found': bool)
    requires Climbed(items, g, starts, origin, approvedEndpoints, pending, visited, found)
    requires pending != [] && parent == pending[|pending| - 1] && parent !in visited
    requires FormAncestorOk(items, parent, origin, approvedEndpoints)
    requires more == (if items[parent].kind == Asset then [] else items[parent].parents)
    requires found' == (found || items[parent].kind == Asset)
    ensures Climbed(items, g, starts, origin, approvedEndpoints, pending[..|pending| - 1] + more,
            visited + {parent}, found')
    ensures |Universe(g, starts) - (visited + {parent})| < |Universe(g, starts) - visited|
  {
    UpwardsExpands(items, parent, visited);
    FrontierAdvances(g, starts, pending, visited, more);
    assert forall x :: x in visited + {parent} <==> x in visited || x == parent;
  }

  ghost predicate ReachedBy(items: Items, parents: seq<Id>, x: Id) {
    ReachedFrom(Upwards(items), parents, x)
  }

  /** A valid origin, every ancestor below an asset agrees with it, and an asset is reached. */
  ghost predicate ConsistentForm(items: Items, formId: Id, action: Option<Origin>, approvedEndpoints: set<Id>) {
    && action.Some? && formId in items && items[formId].parents != []
    && (forall x | ReachedBy(items, items[formId].parents, x) ::
          FormAncestorOk(items, x, action.value, approvedEndpoints))
    && exists x :: ReachedBy(items, items[formId].parents, x) && x in items && items[x].kind == Asset
  }

  lemma FormClimbed(items: Items, formId: Id, action: Option<Origin>, approvedEndpoints: set<Id>, visited: set<Id>,
                    assetFound: bool)
    requires action.Some? && formId in items && items[formId].parents != []
    requires forall x :: x in visited <==> ReachedBy(items, items[formId].parents, x)
    requires forall x | x in visited :: FormAncestorOk(items, x, action.value, approvedEndpoints)
    requires assetFound <==> exists x :: x in visited && x in items && items[x].kind == Asset
    ensures ConsistentForm(items, formId, action, approvedEndpoints) <==> assetFound
  {
    if assetFound {
      var x :| x in visited && x in items && items[x].kind == Asset;
      assert ReachedBy(items, items[formId].parents, x);
    }
  }

  lemma FormContradicted(items: Items, formId: Id, action: Option<Origin>, approvedEndpoints: set<Id>, x: Id)
    requires action.Some? && formId in items && ReachedBy(items, items[formId].parents, x)
    requires !FormAncestorOk(items, x, action.value, approvedEndpoints)
    ensures !ConsistentForm(items, formId, action, approvedEndpoints)
  {
  }

  method FormHasConsistentAssetOrigins(formId: Id, action: Option<Origin>, items: Items, approvedEndpoints: set<Id>)
    returns (consistent: bool)
    ensures consistent <==> ConsistentForm(items, formId, action, approvedEndpoints)
  {
    if action == None || formId !in items || items[formId].parents == [] {
      return false;
    }
    ghost var g, starts := Upwards(items), items[formId].parents;
    var origin := action.value;
    var pending, visited, assetFound := items[formId].parents, {}, false;
    FrontierStarts(g, starts);
    while pending != []
      invariant Climbed(items, g, starts, origin, approvedEndpoints, pending, visited, assetFound)
      decreases |Universe(g, starts) - visited|, |pending|
    {
      var parent := pending[|pending| - 1];
      assert ReachedBy(items, starts, parent);
      if parent in visited {
        FrontierSkips(g, starts, pending, visited);
        pending := pending[..|pending| - 1];
        continue;
      }
      if !FormAncestorOk(items, parent, origin, approvedEndpoints) {
        FormContradicted(items, formId, action, approvedEndpoints, parent);
        return false;
      }
      var more := if items[parent].kind == Asset then [] else items[parent].parents;
      var found := assetFound || items[parent].kind == Asset;
      ClimbsOn(items, g, starts, origin, approvedEndpoints, pending, visited, assetFound, parent, more, found);
      pending, visited, assetFound := pending[..|pending| - 1] + more, visited + {parent}, found;
    }
    forall x ensures x in visited <==> ReachedBy(items, starts, x) { FrontierDone(g, starts, visited, x); }
    FormClimbed(items, formId, action, approvedEndpoints, visited, assetFound);
    return assetFound;
  }

  /** What the surface approves; without a scope checker everything is trusted. */
  datatype Scope = Scope(checked: bool, assets: set<Id>, endpoints: set<Id>, forms: set<Id>)

  /** What an ancestor of a scan must satisfy. */
  predicate ScanAncestorOk(items: Items, x: Id, scope: Scope) {
    && x in items
    && (items[x].kind == Endpoint ==> x in scope.endpoints)
    && (items[x].kind == Form ==> x in scope.forms)
  }

  /** `x` exists and, if it is an asset, an endpoint or a form, is approved. */
  predicate Approved(items: Items, x: Id, scope: Scope) {
    ScanAncestorOk(items, x, scope) && (x in AssetIds(items) ==> x in scope.assets)
  }

  ghost predicate SoleAssetApproved(items: Items, scope: Scope) {
    exists a :: a in scope.assets && AssetIds(items) == {a}
  }

  ghost predicate AncestryApproved(items: Items, parents: seq<Id>, scope: Scope) {
    && (forall x | ReachedBy(items, parents, x) :: Approved(items, x, scope))
    && (exists x :: ReachedBy(items, parents, x) && x in AssetIds(items))
  }

  /** A scan without parents counts for the only asset; any other for the approved assets it reaches. */
  ghost predicate Trusted(parents: seq<Id>, items: Items, scope: Scope) {
    scope.checked ==> if parents == [] then SoleAssetApproved(items, scope) else AncestryApproved(items, parents, scope)
  }

  lemma AncestrySeen(items: Items, parents: seq<Id>, scope: Scope, seen: set<Id>, linked: set<Id>)
    requires forall x :: x in seen <==> ReachedBy(items, parents, x)
    requires forall x | x in seen :: ScanAncestorOk(items, x, scope)
    requires forall x :: x in linked <==> x in seen && x in AssetIds(items)
    ensures AncestryApproved(items, parents, scope) <==> linked != {} && linked <= scope.assets
  {
    if linked != {} && linked <= scope.assets {
      var a :| a in linked;
      assert ReachedBy(items, parents, a) && a in AssetIds(items);
      forall x | ReachedBy(items, parents, x) ensures Approved(items, x, scope) { assert x in seen; }
    }
    if AncestryApproved(items, parents, scope) {
      var a :| ReachedBy(items, parents, a) && a in AssetIds(items);
      assert a in linked;
    }
  }

  /** `trustworthy_lineage`. */
  method TrustworthyLineage(parents: seq<Id>, items: Items, scope: Scope) returns (trusted: bool)
    ensures trusted <==> Trusted(parents, items, scope)
  {
    if !scope.checked {
      return true;
    }
    if parents == [] {
      var assets := AssetIds(items);
      SingletonExactly(assets);
      if |assets| != 1 {
        return false;
      }
      var only :| only in assets;
      return only in scope.assets;
    }
    ghost var g := Upwards(items);
    var pending, seen: set<Id>, linkedAssets: set<Id> := parents, {}, {};
    FrontierStarts(g, parents);
    while pending != []
      invariant Frontier(g, parents, pending, seen)
      invariant forall x | x in seen :: ScanAncestorOk(items, x, scope)
      invariant forall x :: x in linkedAssets <==> x in seen && x in items && items[x].kind == Asset
      decreases |Universe(g, parents) - seen|, |pending|
    {
      var parent := pending[|pending| - 1];
      assert ReachedFrom(g, parents, parent);
      if parent in seen {
        FrontierSkips(g, parents, pending, seen);
        pending := pending[..|pending| - 1];
        continue;
      }
      if !ScanAncestorOk(items, parent, scope) {
        assert ReachedBy(items, parents, parent) && !Approved(items, parent, scope);
        return false;
      }
      var more := if items[parent].kind == Asset then [] else items[parent].parents;
      UpwardsExpands(items, parent, seen);
      FrontierAdvances(g, parents, pending, seen, more);
      if items[parent].kind == Asset {
        linkedAssets := linkedAssets + {parent};
      }
      pending, seen := pending[..|pending| - 1] + more, seen + {parent};
    }
    forall x ensures x in seen <==> ReachedBy(items, parents, x) { FrontierDone(g, parents, seen, x); }
    AncestrySeen(items, parents, scope, seen, linkedAssets);
    return linkedAssets != {} && linkedAssets <= scope.assets;
  }

  /** Everything reached exists and is approved for what it is, and some asset is reached. */
  ghost predicate WellFounded(items: Items, parents: seq<Id>, scope: Scope) {
    && (forall x | ReachedBy(items, parents, x) ::
          && x in items
          && (items[x].kind == Asset ==> x in scope.assets)
          && (items[x].kind == Endpoint ==> x in scope.endpoints)
          && (items[x].kind == Form ==> x in scope.forms))
    && exists a :: ReachedBy(items, parents, a) && a in items && items[a].kind == Asset
  }

  predicate OnlyAsset(items: Items, a: Id) {
    a in items && items[a].kind == Asset && forall b | b in items && items[b].kind == Asset :: b == a
  }

  /** A scan with parents is trusted exactly when its ancestry is well founded; one without, for the only asset. */
  lemma TrustedExactly(parents: seq<Id>, items: Items, scope: Scope)
    ensures !scope.checked ==> Trusted(parents, items, scope)
    ensures scope.checked && parents != [] ==> (Trusted(parents, items, scope) <==> WellFounded(items, parents, scope))
    ensures scope.checked && parents == [] ==>
      (Trusted(parents, items, scope) <==>
        exists a :: a in scope.assets && OnlyAsset(items, a))
  {
    if WellFounded(items, parents, scope) {
      var a :| ReachedBy(items, parents, a) && a in items && items[a].kind == Asset;
      assert a in AssetIds(items);
    }
    if a :| a in scope.assets && OnlyAsset(items, a) {
      assert AssetIds(items) == {a};
    }
    if a :| a in scope.assets && AssetIds(items) == {a} {
      assert a in AssetIds(items);
      assert forall b | b in items && items[b].kind == Asset :: b in AssetIds(items);
    }
  }

  /** Above a consistent form endpoints are approved and, like forms, of its origin; assets claim at least it. */
  lemma ConsistentFormExactly(items: Items, formId: Id, action: Option<Origin>, approvedEndpoints: set<Id>)
    requires action.Some? && formId in items && items[formId].parents != []
    ensures ConsistentForm(items, formId, action, approvedEndpoints) <==>
      && (forall x | ReachedBy(items, items[formId].parents, x) ::
            && x in items
            && (items[x].kind == Asset ==> Supports(items[x].claim, action.value))
            && (items[x].kind == Endpoint ==> x in approvedEndpoints)
            && (items[x].kind == Endpoint || items[x].kind == Form ==> items[x].origin == action))
      && exists a :: ReachedBy(items, items[formId].parents, a) && a in items && items[a].kind == Asset
  {
  }

  /** A row of the surface: a form with the origin of its action. */
  datatype SurfaceForm = SurfaceForm(id: Id, action: Option<Origin>, valid: bool, inScope: bool)

  datatype Surface = Surface(checked: bool, assets: set<Id>, endpoints: set<Id>, forms: seq<SurfaceForm>)

  ghost predicate FormApproved(f: SurfaceForm, items: Items, surface: Surface) {
    f.valid && f.inScope && ConsistentForm(items, f.id, f.action, surface.endpoints)
  }

  ghost predicate ScopeOf(surface: Surface, items: Items, scope: Scope) {
    && scope == Scope(surface.checked, surface.assets, surface.endpoints, scope.forms)
    && forall x :: x in scope.forms <==> exists f | f in surface.forms :: f.id == x && FormApproved(f, items, surface)
  }

  /** The forms that pass the walk of their own. */
  method ReadScope(surface: Surface, items: Items) returns (scope: Scope)
    ensures ScopeOf(surface, items, scope)
  {
    var approved: set<Id> := {};
    for i := 0 to |surface.forms|
      invariant forall x :: x in approved <==>
        exists k | 0 <= k < i :: surface.forms[k].id == x && FormApproved(surface.forms[k], items, surface)
    {
      var f := surface.forms[i];
      var consistent := FormHasConsistentAssetOrigins(f.id, f.action, items, surface.endpoints);
      if f.valid && f.inScope && consistent {
        approved := approved + {f.id};
      }
    }
    return Scope(surface.checked, surface.assets, surface.endpoints, approved);
  }

  /**
   The two walks together: below a trusted scan every form is one the surface approves, the assets above it
   are approved ones that support the origin of its action, and there is such an asset.
   */
  lemma TrustedThroughForms(parents: seq<Id>, items: Items, surface: Surface, scope: Scope, x: Id)
    returns (f: SurfaceForm)
    requires ScopeOf(surface, items, scope) && scope.checked && parents != [] && Trusted(parents, items, scope)
    requires ReachedBy(items, parents, x) && x in items && items[x].kind == Form
    ensures f in surface.forms && f.id == x && FormApproved(f, items, surface)
    ensures forall a | ReachedBy(items, items[x].parents, a) && a in AssetIds(items) ::
      a in surface.assets && Supports(items[a].claim, f.action.value)
    ensures exists a :: ReachedBy(items, items[x].parents, a) && a in AssetIds(items)
  {
    assert Approved(items, x, scope);
    f :| f in surface.forms && f.id == x && FormApproved(f, items, surface);
    forall a | ReachedBy(items, items[x].parents, a) && a in AssetIds(items)
      ensures a in surface.assets && Supports(items[a].claim, f.action.value)
    {
      ReachedBeyond(Upwards(items), parents, x, items[x].parents, a);
      assert Approved(items, a, scope);
      assert FormAncestorOk(items, a, f.action.value, surface.endpoints);
    }
    var a :| ReachedBy(items, items[x].parents, a) && a in items && items[a].kind == Asset;
    assert a in AssetIds(items);
  }

  function AssetIds(items: Items): set<Id> {
    set x | x in items && items[x].kind == Asset
  }

  function EndpointIds(items: Items): set<Id> {
    set x | x in items && items[x].kind == Endpoint
  }

  ghost predicate ReachesMissing(items: Items, parents: seq<Id>) {
    exists x :: ReachedBy(items, parents, x) && x !in items
  }

  /** The assets and endpoints reached, or nothing at all if an ancestor is missing. */
  ghost predicate Linked(parents: seq<Id>, items: Items, assets: set<Id>, endpoints: set<Id>) {
    if ReachesMissing(items, parents) then assets == {} && endpoints == {}
    else
      && (forall x :: x in assets <==> ReachedBy(items, parents, x) && x in AssetIds(items))
      && (forall x :: x in endpoints <==> ReachedBy(items, parents, x) && x in EndpointIds(items))
  }

  lemma LinkedSeen(items: Items, parents: seq<Id>, seen: set<Id>, assets: set<Id>, endpoints: set<Id>)
    requires (forall x :: x in seen <==> ReachedBy(items, parents, x)) && forall x | x in seen :: x in items
    requires forall x :: x in assets <==> x in seen && x in AssetIds(items)
    requires forall x :: x in endpoints <==> x in seen && x in EndpointIds(items)
    ensures Linked(parents, items, assets, endpoints)
  {
    assert !ReachesMissing(items, parents) by {
      forall x | ReachedBy(items, parents, x) ensures x in items { assert x in seen; }
    }
  }

  /** `linked_lineage_ids`. */
  method LinkedLineageIds(parents: seq<Id>, items: Items) returns (assets: set<Id>, endpoints: set<Id>)
    ensures Linked(parents, items, assets, endpoints)
  {
    ghost var g := Upwards(items);
    var pending, seen: set<Id> := parents, {};
    assets, endpoints := {}, {};
    FrontierStarts(g, parents);
    while pending != []
      invariant Frontier(g, parents, pending, seen) && forall x | x in seen :: x in items
      invariant forall x :: x in assets <==> x in seen && x in AssetIds(items)
      invariant forall x :: x in endpoints <==> x in seen && x in EndpointIds(items)
      decreases |Universe(g, parents) - seen|, |pending|
    {
      var parent := pending[|pending| - 1];
      assert ReachedFrom(g, parents, parent);
      if parent in seen {
        FrontierSkips(g, parents, pending, seen);
        pending := pending[..|pending| - 1];
        continue;
      }
      if parent !in items {
        assert ReachedBy(items, parents, parent);
        return {}, {};
      }
      var more := if items[parent].kind == Asset then [] else items[parent].parents;
      UpwardsExpands(items, parent, seen);
      FrontierAdvances(g, parents, pending, seen, more);
      if items[parent].kind == Asset {
        assets := assets + {parent};
      } else if items[parent].kind == Endpoint {
        endpoints := endpoints + {parent};
      }
      pending, seen := pending[..|pending| - 1] + more, seen + {parent};
    }
    forall x ensures x in seen <==> ReachedBy(items, parents, x) { FrontierDone(g, parents, seen, x); }
    LinkedSeen(items, parents, seen, assets, endpoints);
  }

  /** `explicit_endpoint_ancestry`: the nearest endpoints on every branch; missing ancestors are skipped. */
  method ExplicitEndpointAncestry(parents: seq<Id>, items: Items) returns (endpoints: set<Id>)
    ensures forall x :: x in endpoints <==> ReachedFrom(UpToEndpoints(items), parents, x) && x in EndpointIds(items)
  {
    ghost var g := UpToEndpoints(items);
    var pending, visited: set<Id> := parents, {};
    endpoints := {};
    FrontierStarts(g, parents);
    while pending != []
      invariant Frontier(g, parents, pending, visited)
      invariant forall x :: x in endpoints <==> x in visited && x in items && items[x].kind == Endpoint
      decreases |Universe(g, parents) - visited|, |pending|
    {
      var parent := pending[|pending| - 1];
      if parent in visited {
        FrontierSkips(g, parents, pending, visited);
        pending := pending[..|pending| - 1];
        continue;
      }
      var more := [];
      if parent in items {
        if items[parent].kind == Endpoint {
          endpoints := endpoints + {parent};
        } else if items[parent].kind != Asset {
          more := items[parent].parents;
        }
      }
      UpToEndpointsExpands(items, parent, visited);
      FrontierAdvances(g, parents, pending, visited, more);
      pending, visited := pending[..|pending| - 1] + more, visited + {parent};
    }
    forall x ensures x in visited <==> ReachedFrom(g, parents, x) { FrontierDone(g, parents, visited, x); }
  }
}
