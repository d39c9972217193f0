/** The OpenAPI document transformer that declares a "Bearer" security
    scheme and attaches a requirement for it to every operation. */
module OpenApiTransformer {
  import opened Wrappers
  import opened AuthenticationExtensions

  datatype SecuritySchemeType = ApiKey | Http | OAuth2 | OpenIdConnect
  datatype ParameterLocation = Query | Header | Path | Cookie

  datatype SecurityScheme = SecurityScheme(
    schemeType: SecuritySchemeType, scheme: string, bearerFormat: string,
    location: ParameterLocation, description: string)

  /** A security requirement: scheme reference to required scopes. */
  datatype SecurityRequirement = SecurityRequirement(scopes: map<string, seq<string>>)

  /** An operation; `security` is null until something sets it. */
  datatype Operation = Operation(operationId: string, security: Option<seq<SecurityRequirement>>)

  /** A path item: its operations by HTTP method. */
  datatype PathItem = PathItem(operations: map<string, Operation>)

  /** The components section: the security schemes (null until set) and the
      schemas, which stand for everything else the section holds. */
  datatype Components = Components(securitySchemes: Option<map<string, SecurityScheme>>, schemas: map<string, string>)

  const BearerSchemeName := "Bearer"

  function BearerSecurityScheme(): SecurityScheme {
    SecurityScheme(Http, "bearer", "JWT", Header, "Paste a JWT access token here")
  }

  /** A requirement referencing the "Bearer" scheme with no scopes. */
  function BearerRequirement(): SecurityRequirement {
    SecurityRequirement(map[BearerSchemeName := []])
  }

  /** Some registered authentication scheme is "EntraBearer" or "DrBearer". */
  predicate HasJwtBearerScheme(schemes: seq<string>)
    ensures HasJwtBearerScheme(schemes) <==> EntraBearerScheme in schemes || DrBearerScheme in schemes
  {
    exists i :: 0 <= i < |schemes| && (schemes[i] == EntraBearerScheme || schemes[i] == DrBearerScheme)
  }

  /** The components after the transform: created when null, the schemes
      dictionary created when null, and the "Bearer" entry set. */
  function WithBearerScheme(components: Option<Components>): (c: Components)
    ensures c.securitySchemes.Some? && BearerSchemeName in c.securitySchemes.value
    ensures c.securitySchemes.value[BearerSchemeName] == BearerSecurityScheme()
    ensures components.Some? ==> c.schemas == components.value.schemas
    ensures components.None? ==> c.schemas == map[]
    ensures components.Some? && components.value.securitySchemes.Some? ==>
      c.securitySchemes.value.Keys == components.value.securitySchemes.value.Keys + {BearerSchemeName}
      && forall k :: k in components.value.securitySchemes.value && k != BearerSchemeName ==>
           c.securitySchemes.value[k] == components.value.securitySchemes.value[k]
    ensures components.None? || components.value.securitySchemes.None? ==>
      c.securitySchemes.value == map[BearerSchemeName := BearerSecurityScheme()]
  {
    var existing := components.GetOr(Components(None, map[]));
    existing.(securitySchemes := Some(existing.securitySchemes.GetOr(map[])[BearerSchemeName := BearerSecurityScheme()]))
  }

  /** An operation after the transform: it keeps its requirements, in order,
      and gains exactly one more, the "Bearer" one; a null list becomes a
      list of one. */
  function Secured(operation: Operation): (secured: Operation)
    ensures var s := secured.security;
      && s.Some?
      && |s.value| == |operation.security.GetOr([])| + 1
      && s.value[..|s.value| - 1] == operation.security.GetOr([])
      && s.value[|s.value| - 1] == BearerRequirement()
      && (operation.security.None? ==> s.value == [BearerRequirement()])
      && secured.operationId == operation.operationId
  {
    operation.(security := Some(operation.security.GetOr([]) + [BearerRequirement()]))
  }

  function SecuredPathItem(item: PathItem): PathItem {
    PathItem(map m | m in item.operations :: Secured(item.operations[m]))
  }

  function SecuredPaths(paths: map<string, PathItem>): map<string, PathItem> {
    map p | p in paths :: SecuredPathItem(paths[p])
  }

  /** The document being transformed; the transform changes it in place. */
  class OpenApiDocument {
    var components: Option<Components>
    var paths: map<string, PathItem>

    constructor (components: Option<Components>, paths: map<string, PathItem>)
      ensures this.components == components && this.paths == paths
    {
      this.components := components;
      this.paths := paths;
    }
  }

  /** `TransformAsync`, given the names of the registered authentication schemes. */
  method TransformAsync(document: OpenApiDocument, schemes: seq<string>)
    modifies document
    ensures !HasJwtBearerScheme(schemes) ==>
      document.components == old(document.components) && document.paths == old(document.paths)
    ensures HasJwtBearerScheme(schemes) ==>
      document.components == Some(WithBearerScheme(old(document.components)))
      && document.paths == SecuredPaths(old(document.paths))
  {
    if !HasJwtBearerScheme(schemes) {
      return;
    }
    if document.components.None? {
      document.components := Some(Components(None, map[]));
    }
    var components := document.components.value;
    if components.securitySchemes.None? {
      components := components.(securitySchemes := Some(map[]));
    }
    components := components.(securitySchemes := Some(components.securitySchemes.value[BearerSchemeName := BearerSecurityScheme()]));
    document.components := Some(components);

    var remaining := document.paths.Keys;
    while remaining != {}
      invariant remaining <= old(document.paths).Keys
      invariant document.components == Some(WithBearerScheme(old(document.components)))
      invariant document.paths.Keys == old(document.paths).Keys
      invariant forall p :: p in document.paths ==>
        document.paths[p] == if p in remaining then old(document.paths)[p] else SecuredPathItem(old(document.paths)[p])
      decreases remaining
    {
      var p :| p in remaining;
      var item := document.paths[p];
      var operations := item.operations;
      var pending := operations.Keys;
      while pending != {}
        invariant pending <= item.operations.Keys
        invariant operations.Keys == item.operations.Keys
        invariant forall m :: m in operations ==>
          operations[m] == if m in pending then item.operations[m] else Secured(item.operations[m])
        decreases pending
      {
        var m :| m in pending;
        var operation := operations[m];
        var security := operation.security.GetOr([]);
        security := security + [BearerRequirement()];
        operations := operations[m := operation.(security := Some(security))];
        pending := pending - {m};
      }
      document.paths := document.paths[p := PathItem(operations)];
      remaining := remaining - {p};
    }
  }

  /** The set of paths, and of operations under each path, is unchanged. */
  lemma SecuredPathsKeepShape(paths: map<string, PathItem>)
    ensures SecuredPaths(paths).Keys == paths.Keys
    ensures forall p :: p in paths ==> SecuredPaths(paths)[p].operations.Keys == paths[p].operations.Keys
  {
  }

  /** No deduplication: transforming twice leaves two "Bearer" requirements
      more than the operation started with. */
  lemma {:induction false} TransformNotIdempotent(operation: Operation)
    ensures multiset(Secured(Secured(operation)).security.value)[BearerRequirement()]
         == multiset(operation.security.GetOr([]))[BearerRequirement()] + 2
  {
    var s := operation.security.GetOr([]);
    assert Secured(Secured(operation)).security.value == s + [BearerRequirement()] + [BearerRequirement()];
  }
}
