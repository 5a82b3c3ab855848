/**
 * The product router: five registrations, each a verb and a path pattern
 * naming an optional validator and a handler, tried in registration order.
 * `HandleRequest` composes the router with the validators, the controller and
 * the error handler the application installs after it, and shows that a write
 * body the validator rejects never reaches the store.
 */
module Routes {
  import opened Wrappers
  import opened Json
  import opened Api
  import opened Validation
  import opened Errors
  import opened ProductModel
  import opened Controller

  datatype Verb = GET | POST | PUT | PATCH | DELETE

  /** `'/'` and `'/:id'`. */
  datatype Pattern = Collection | Item

  /** Where a path inside the router points: the collection, or one item with its `id` parameter. */
  datatype PathMatch = AtCollection | AtItem(id: Id)

  datatype Validator = ValidateCreateProduct | ValidateUpdateProduct

  datatype Handler = GetAllProducts | GetProductById | CreateProduct | UpdateProduct | DeleteProduct

  datatype Registration = Registration(verb: Verb, pattern: Pattern, validator: Option<Validator>, handler: Handler)

  /** The router's registrations, in order. */
  const Table: seq<Registration> := [
    Registration(GET, Collection, None, GetAllProducts),
    Registration(GET, Item, None, GetProductById),
    Registration(POST, Collection, Some(ValidateCreateProduct), CreateProduct),
    Registration(PUT, Item, Some(ValidateUpdateProduct), UpdateProduct),
    Registration(DELETE, Item, None, DeleteProduct)
  ]

  function SchemaOf(v: Validator): Schema
  {
    match v
    case ValidateCreateProduct => CreateSchema
    case ValidateUpdateProduct => UpdateSchema
  }

  function PatternOf(m: PathMatch): Pattern
  {
    if m.AtCollection? then Collection else Item
  }

  /** A non-empty path segment: what `:id` matches. */
  predicate Segment(s: string)
  {
    s != [] && '/' !in s
  }

  /**
   * Matching a path relative to the router's mount point, with the router's
   * tolerance for one trailing slash: `""` and `"/"` are the collection,
   * `"/x"` and `"/x/"` the item `x`, anything else matches no pattern.
   */
  function ParsePath(path: string): (m: Option<PathMatch>)
    ensures m == Some(AtCollection) <==> path == "" || path == "/"
    ensures m.Some? && m.value.AtItem? ==>
      Segment(m.value.id) && (path == "/" + m.value.id || path == "/" + m.value.id + "/")
  {
    if path == "" || path == "/" then Some(AtCollection)
    else if path[0] != '/' then None
    else
      var rest := path[1..];
      var seg := if rest[|rest| - 1] == '/' then rest[..|rest| - 1] else rest;
      assert path == "/" + rest;
      assert rest[|rest| - 1] == '/' ==> rest == seg + "/";
      if Segment(seg) then Some(AtItem(seg)) else None
  }

  /** The path a match is written as; parsing it gives the match back. */
  function PathOf(m: PathMatch): string
  {
    match m
    case AtCollection => "/"
    case AtItem(id) => "/" + id
  }

  lemma {:induction false} ParsePathRoundTrip(m: PathMatch)
    requires m.AtItem? ==> Segment(m.id)
    ensures ParsePath(PathOf(m)) == Some(m)
    ensures m.AtItem? ==> ParsePath(PathOf(m) + "/") == Some(m)
  {
    if m.AtItem? {
      var p := PathOf(m);
      assert p[1..] == m.id;
      assert p[0] == '/';
      assert m.id[|m.id| - 1] in m.id;
      var q := p + "/";
      assert q[1..] == m.id + "/";
      assert q[0] == '/';
      assert (m.id + "/")[..|m.id|] == m.id;
    }
  }

  /** The first registration for this verb and pattern, as the router tries them in order. */
  function FindRoute(table: seq<Registration>, verb: Verb, pattern: Pattern): (r: Option<Registration>)
    ensures r.Some? ==> r.value in table && r.value.verb == verb && r.value.pattern == pattern
    ensures r.Some? ==> exists k | 0 <= k < |table| ::
      table[k] == r.value && forall i | 0 <= i < k :: table[i].verb != verb || table[i].pattern != pattern
    ensures r.None? <==> forall i | 0 <= i < |table| :: table[i].verb != verb || table[i].pattern != pattern
  {
    if table == [] then None
    else if table[0].verb == verb && table[0].pattern == pattern then Some(table[0])
    else
      var r := FindRoute(table[1..], verb, pattern);
      assert forall i | 1 <= i < |table| :: table[i] == table[1..][i - 1];
      assert r.Some? ==> exists k | 0 <= k < |table| ::
        table[k] == r.value && forall i | 0 <= i < k :: table[i].verb != verb || table[i].pattern != pattern by {
        if r.Some? {
          var k' :| 0 <= k' < |table[1..]| && table[1..][k'] == r.value &&
            forall i | 0 <= i < k' :: table[1..][i].verb != verb || table[1..][i].pattern != pattern;
          assert table[k' + 1] == r.value;
        }
      }
      r
  }

  /** No two registrations share a verb and a pattern, so each pair dispatches to at most one handler. */
  lemma TableUnambiguous()
    ensures forall i, j | 0 <= i < j < |Table| :: Table[i].verb != Table[j].verb || Table[i].pattern != Table[j].pattern
  {
  }

  /** With no two registrations for one pair, the first match is the only match. */
  lemma FindUnique(verb: Verb, pattern: Pattern, k: nat)
    requires k < |Table| && Table[k].verb == verb && Table[k].pattern == pattern
    ensures FindRoute(Table, verb, pattern) == Some(Table[k])
  {
    TableUnambiguous();
  }

  /**
   * The route table: each of the five verb and pattern pairs reaches its own
   * handler, and only POST `/` and PUT `/:id` pass through a validator (create
   * and update respectively).
   */
  lemma RouteTable()
    ensures FindRoute(Table, GET, Collection) == Some(Registration(GET, Collection, None, GetAllProducts))
    ensures FindRoute(Table, GET, Item) == Some(Registration(GET, Item, None, GetProductById))
    ensures FindRoute(Table, POST, Collection) == Some(Registration(POST, Collection, Some(ValidateCreateProduct), CreateProduct))
    ensures FindRoute(Table, PUT, Item) == Some(Registration(PUT, Item, Some(ValidateUpdateProduct), UpdateProduct))
    ensures FindRoute(Table, DELETE, Item) == Some(Registration(DELETE, Item, None, DeleteProduct))
  {
    FindUnique(GET, Collection, 0);
    FindUnique(GET, Item, 1);
    FindUnique(POST, Collection, 2);
    FindUnique(PUT, Item, 3);
    FindUnique(DELETE, Item, 4);
  }

  /** The pairs with no registration: POST `/:id`, PUT `/`, DELETE `/` and every PATCH. */
  lemma UnroutedPairs()
    ensures FindRoute(Table, POST, Item).None? && FindRoute(Table, PUT, Collection).None?
    ensures FindRoute(Table, DELETE, Collection).None?
    ensures FindRoute(Table, PATCH, Collection).None? && FindRoute(Table, PATCH, Item).None?
  {
  }

  /** Facts about every registration that the request pipeline relies on. */
  lemma TableShape(r: Registration)
    requires r in Table
    ensures r.handler in {GetProductById, UpdateProduct, DeleteProduct} <==> r.pattern == Item
    ensures r.handler == CreateProduct ==> r.validator == Some(ValidateCreateProduct)
    ensures r.handler == UpdateProduct ==> r.validator == Some(ValidateUpdateProduct)
    ensures r.handler in {GetAllProducts, GetProductById, DeleteProduct} ==> r.validator.None?
  {
  }

  /** The registration and path match a request resolves to, if it is one this router serves. */
  function Resolve(verb: Verb, path: string): (r: Option<(Registration, PathMatch)>)
    ensures r.None? <==> ParsePath(path).None? || FindRoute(Table, verb, PatternOf(ParsePath(path).value)).None?
    ensures r.Some? ==> ParsePath(path) == Some(r.value.1) && r.value.0 in Table && r.value.0.verb == verb
    ensures r.Some? ==> r.value.0.pattern == PatternOf(r.value.1)
    ensures r.Some? && r.value.0.handler in {GetProductById, UpdateProduct, DeleteProduct} ==> r.value.1.AtItem?
  {
    match ParsePath(path)
    case None => None
    case Some(m) =>
      match FindRoute(Table, verb, PatternOf(m))
      case None => None
      case Some(reg) => TableShape(reg); Some((reg, m))
  }

  datatype Request = Request(verb: Verb, path: string, body: Json)

  /** The response an outcome turns into: its own, or the error handler's for a forwarded error. */
  function Finish(o: Outcome): (r: Response)
    ensures o.Respond? ==> r == o.response
    ensures o.Forward? ==> r == ErrorHandler(o.error) && r.status in {400, 409, 500}
  {
    match o
    case Respond(res) => res
    case Forward(e) => ErrorHandler(e)
  }

  /** The validator a registration runs before its handler rejects the body. */
  predicate RejectedByValidator(r: Registration, body: Json)
  {
    r.validator.Some? && !Accepts(SchemaOf(r.validator.value), body)
  }

  /** Every product the validated write paths store satisfies the data-model invariant. */
  lemma AcceptedCreateStoresValidProduct(rows: map<Id, Product>, faults: map<StoreOp, Error>, body: Json, newId: Id)
    requires Accepts(CreateSchema, body)
    requires CreateResult(rows, faults, body, newId).Ok?
    ensures ProductValid(CreateResult(rows, faults, body, newId).value)
  {
  }

  lemma AcceptedUpdateKeepsProductValid(p: Product, body: Json)
    requires ProductValid(p)
    requires Accepts(UpdateSchema, body) && UpdatableData(body)
    ensures ProductValid(Merge(p, body))
  {
  }

  /** The outcome of a handler together with the store it leaves behind. */
  datatype Step = Step(outcome: Outcome, rows: map<Id, Product>, created: seq<Id>)

  /**
   * What the registered handler does to a store: the answer it gives and the
   * rows and creation order afterwards. Read handlers leave the store as it
   * is; update and delete answer 404 without touching it when the id is
   * absent; a failing store call is forwarded and leaves it unchanged.
   */
  function RunSpec(h: Handler, m: PathMatch, body: Json, newId: Id,
                   rows: map<Id, Product>, created: seq<Id>, faults: map<StoreOp, Error>): (r: Step)
    requires StoreInvariant(rows, created)
    requires h in {GetProductById, UpdateProduct, DeleteProduct} ==> m.AtItem?
    ensures StoreInvariant(r.rows, r.created)
  {
    match h
    case GetAllProducts =>
      Step(if OpGetAll in faults then Forward(faults[OpGetAll])
           else Respond(Response(200, Many(Listing(rows, created)))), rows, created)
    case GetProductById =>
      Step(if OpGetById in faults then Forward(faults[OpGetById])
           else if m.id !in rows then Respond(NotFound)
           else Respond(Response(200, One(rows[m.id]))), rows, created)
    case CreateProduct =>
      (match CreateResult(rows, faults, body, newId)
       case Ok(p) => Step(Respond(Response(201, One(p))), rows[newId := p], created + [newId])
       case Err(e) => Step(Forward(e), rows, created))
    case UpdateProduct =>
      if OpGetById in faults then Step(Forward(faults[OpGetById]), rows, created)
      else if m.id !in rows then Step(Respond(NotFound), rows, created)
      else
        (match UpdateResult(rows, faults, m.id, body)
         case Ok(p) => Step(Respond(Response(200, One(p))), rows[m.id := p], created)
         case Err(e) => Step(Forward(e), rows, created))
    case DeleteProduct =>
      if OpGetById in faults then Step(Forward(faults[OpGetById]), rows, created)
      else if m.id !in rows then Step(Respond(NotFound), rows, created)
      else
        match DeleteResult(rows, faults, m.id)
        case Ok(_) => DeleteKeepsInvariant(rows, created, m.id); Step(Respond(Response(204, Empty)), rows - {m.id}, Without(created, m.id))
        case Err(e) => Step(Forward(e), rows, created)
  }

  /** Only the three write handlers change the store, and every handler answers 200, 201, 204 or 404 when it answers itself. */
  lemma RunSpecEffects(h: Handler, m: PathMatch, body: Json, newId: Id,
                       rows: map<Id, Product>, created: seq<Id>, faults: map<StoreOp, Error>)
    requires StoreInvariant(rows, created)
    requires h in {GetProductById, UpdateProduct, DeleteProduct} ==> m.AtItem?
    ensures var s := RunSpec(h, m, body, newId, rows, created, faults);
      && (s.outcome.Respond? ==> s.outcome.response.status in {200, 201, 204, 404})
      && (h !in {CreateProduct, UpdateProduct, DeleteProduct} ==> s.rows == rows && s.created == created)
      && (s.outcome.Forward? ==> s.rows == rows && s.created == created)
      && (s.outcome == Respond(NotFound) ==> s.rows == rows && s.created == created)
  {
  }

  /**
   * A handler run on a body its registration's validator accepted keeps
   * every stored product valid.
   */
  lemma RunSpecKeepsProductsValid(reg: Registration, m: PathMatch, body: Json, newId: Id,
                                  rows: map<Id, Product>, created: seq<Id>, faults: map<StoreOp, Error>)
    requires StoreInvariant(rows, created) && AllValid(rows)
    requires reg in Table && reg.pattern == PatternOf(m)
    requires !RejectedByValidator(reg, body)
    ensures reg.handler in {GetProductById, UpdateProduct, DeleteProduct} ==> m.AtItem?
    ensures AllValid(RunSpec(reg.handler, m, body, newId, rows, created, faults).rows)
  {
    TableShape(reg);
    match reg.handler
    case CreateProduct =>
      if CreateResult(rows, faults, body, newId).Ok? {
        AcceptedCreateStoresValidProduct(rows, faults, body, newId);
      }
    case UpdateProduct =>
      if OpGetById !in faults && m.id in rows && UpdateResult(rows, faults, m.id, body).Ok? {
        AcceptedUpdateKeepsProductValid(rows[m.id], body);
      }
    case _ =>
  }

  /**
   * One request through the application: route, validate, handle, and turn a
   * forwarded error into the error handler's response. `None` means the
   * router has no registration for the request. `newId` is the id the store
   * would give a created row.
   */
  method HandleRequest(c: ProductController, req: Request, newId: Id) returns (res: Option<Response>)
    requires c.service.Valid()
    modifies c.service
    ensures c.service.Valid()
    ensures res.None? <==> Resolve(req.verb, req.path).None?
    ensures res.None? ==> c.service.rows == old(c.service.rows) && c.service.created == old(c.service.created)
    ensures res.Some? ==> res.value.status in {200, 201, 204, 400, 404, 409, 500}
    ensures Resolve(req.verb, req.path).Some? && RejectedByValidator(Resolve(req.verb, req.path).value.0, req.body) ==>
      && res == Some(Validate(SchemaOf(Resolve(req.verb, req.path).value.0.validator.value), req.body).response)
      && c.service.rows == old(c.service.rows)
      && c.service.created == old(c.service.created)
    ensures Resolve(req.verb, req.path).Some? && !RejectedByValidator(Resolve(req.verb, req.path).value.0, req.body) ==>
      var (reg, m) := Resolve(req.verb, req.path).value;
      var s := RunSpec(reg.handler, m, req.body, newId, old(c.service.rows), old(c.service.created), c.service.faults);
      && res == Some(Finish(s.outcome))
      && c.service.rows == s.rows
      && c.service.created == s.created
    ensures c.service.rows != old(c.service.rows) ==>
      && Resolve(req.verb, req.path).Some?
      && Resolve(req.verb, req.path).value.0.handler in {CreateProduct, UpdateProduct, DeleteProduct}
      && !RejectedByValidator(Resolve(req.verb, req.path).value.0, req.body)
    ensures AllValid(old(c.service.rows)) ==> AllValid(c.service.rows)
  {
    var resolved := Resolve(req.verb, req.path);
    if resolved.None? {
      return None;
    }
    var (reg, m) := resolved.value;
    TableShape(reg);
    if reg.validator.Some? {
      var d := Validate(SchemaOf(reg.validator.value), req.body);
      if d.Reject? {
        return Some(d.response);
      }
    }
    var o := RunHandler(c, reg, m, req.body, newId);
    res := Some(Finish(o));
  }

  /**
   * The handler step of a request that routing and validation let through:
   * the registered handler runs, with the answer and the new store that
   * `RunSpec` gives.
   */
  method RunHandler(c: ProductController, reg: Registration, m: PathMatch, body: Json, newId: Id) returns (o: Outcome)
    requires c.service.Valid()
    requires reg in Table && reg.pattern == PatternOf(m)
    requires !RejectedByValidator(reg, body)
    modifies c.service
    ensures c.service.Valid()
    ensures reg.handler in {GetProductById, UpdateProduct, DeleteProduct} ==> m.AtItem?
    ensures var s := RunSpec(reg.handler, m, body, newId, old(c.service.rows), old(c.service.created), c.service.faults);
      o == s.outcome && c.service.rows == s.rows && c.service.created == s.created
    ensures o.Respond? ==> o.response.status in {200, 201, 204, 404}
    ensures c.service.rows != old(c.service.rows) ==> reg.handler in {CreateProduct, UpdateProduct, DeleteProduct}
    ensures reg.handler !in {CreateProduct, UpdateProduct, DeleteProduct} ==> c.service.created == old(c.service.created)
    ensures AllValid(old(c.service.rows)) ==> AllValid(c.service.rows)
  {
    TableShape(reg);
    ghost var rows0, created0 := c.service.rows, c.service.created;
    RunSpecEffects(reg.handler, m, body, newId, rows0, created0, c.service.faults);
    if AllValid(rows0) {
      RunSpecKeepsProductsValid(reg, m, body, newId, rows0, created0, c.service.faults);
    }
    match reg.handler
    case GetAllProducts =>
      o := c.GetAllProducts();
    case GetProductById =>
      o := c.GetProductById(m.id);
    case CreateProduct =>
      o := c.CreateProduct(body, newId);
    case UpdateProduct =>
      o := c.UpdateProduct(m.id, body);
    case DeleteProduct =>
      o := c.DeleteProduct(m.id);
  }
}
