/**
 * The request handlers. Each handler runs its store calls in sequence and ends
 * in exactly one outcome: a response, or the store's error handed on to the
 * error handler. Update and delete look the id up first and answer 404 without
 * touching the store when it is absent.
 */
module Controller {
  import opened Wrappers
  import opened Json
  import opened Api
  import opened ProductModel

  /** How a handler ends: it writes one response, or it calls `next(error)`. */
  datatype Outcome = Respond(response: Response) | Forward(error: Error)

  const NotFound := Response(404, ErrorBody(NotFoundMessage, NoDetails))

  class ProductController {
    const service: ProductService

    constructor (service: ProductService)
      ensures this.service == service
    {
      this.service := service;
    }

    /** The list of products as the store returns it, with status 200; a store failure is forwarded. */
    method GetAllProducts() returns (o: Outcome)
      requires service.Valid()
      ensures OpGetAll in service.faults ==> o == Forward(service.faults[OpGetAll])
      ensures OpGetAll !in service.faults ==>
        o == Respond(Response(200, Many(Listing(service.rows, service.created))))
    {
      var r := service.GetAllProducts();
      match r
      case Ok(products) => o := Respond(Response(200, Many(products)));
      case Err(e) => o := Forward(e);
    }

    /** The stored product with status 200, or 404 when there is none; a store failure is forwarded. */
    method GetProductById(id: Id) returns (o: Outcome)
      requires service.Valid()
      ensures OpGetById in service.faults ==> o == Forward(service.faults[OpGetById])
      ensures OpGetById !in service.faults && id !in service.rows ==> o == Respond(NotFound)
      ensures OpGetById !in service.faults && id in service.rows ==>
        o == Respond(Response(200, One(service.rows[id])))
    {
      var r := service.GetProductById(id);
      match r
      case Err(e) => o := Forward(e);
      case Ok(None) => o := Respond(NotFound);
      case Ok(Some(product)) => o := Respond(Response(200, One(product)));
    }

    /** The body goes to the store's create; the product it returns is answered with 201. */
    method CreateProduct(body: Json, newId: Id) returns (o: Outcome)
      requires service.Valid()
      modifies service
      ensures service.Valid()
      ensures match CreateResult(old(service.rows), service.faults, body, newId)
        case Ok(p) =>
          && o == Respond(Response(201, One(p)))
          && service.rows == old(service.rows)[newId := p]
          && service.created == old(service.created) + [newId]
        case Err(e) =>
          && o == Forward(e)
          && service.rows == old(service.rows)
          && service.created == old(service.created)
    {
      var r := service.CreateProduct(body, newId);
      match r
      case Ok(product) => o := Respond(Response(201, One(product)));
      case Err(e) => o := Forward(e);
    }

    /**
     * Look the id up; when it is absent answer 404 and leave the store alone,
     * otherwise update it with the body and answer the updated product.
     */
    method UpdateProduct(id: Id, body: Json) returns (o: Outcome)
      requires service.Valid()
      modifies service
      ensures service.Valid()
      ensures OpGetById in service.faults ==>
        o == Forward(service.faults[OpGetById]) && service.rows == old(service.rows) && service.created == old(service.created)
      ensures OpGetById !in service.faults && id !in old(service.rows) ==>
        o == Respond(NotFound) && service.rows == old(service.rows) && service.created == old(service.created)
      ensures OpGetById !in service.faults && id in old(service.rows) ==>
        match UpdateResult(old(service.rows), service.faults, id, body)
        case Ok(p) =>
          && o == Respond(Response(200, One(p)))
          && service.rows == old(service.rows)[id := p]
          && service.created == old(service.created)
        case Err(e) =>
          && o == Forward(e)
          && service.rows == old(service.rows)
          && service.created == old(service.created)
    {
      var existing := service.GetProductById(id);
      match existing
      case Err(e) => o := Forward(e);
      case Ok(None) => o := Respond(NotFound);
      case Ok(Some(_)) =>
        var r := service.UpdateProduct(id, body);
        match r
        case Ok(product) => o := Respond(Response(200, One(product)));
        case Err(e) => o := Forward(e);
    }

    /**
     * Look the id up; when it is absent answer 404 and leave the store alone,
     * otherwise delete it and answer 204 with an empty body.
     */
    method DeleteProduct(id: Id) returns (o: Outcome)
      requires service.Valid()
      modifies service
      ensures service.Valid()
      ensures OpGetById in service.faults ==>
        o == Forward(service.faults[OpGetById]) && service.rows == old(service.rows) && service.created == old(service.created)
      ensures OpGetById !in service.faults && id !in old(service.rows) ==>
        o == Respond(NotFound) && service.rows == old(service.rows) && service.created == old(service.created)
      ensures OpGetById !in service.faults && id in old(service.rows) ==>
        match DeleteResult(old(service.rows), service.faults, id)
        case Ok(_) =>
          && o == Respond(Response(204, Empty))
          && service.rows == old(service.rows) - {id}
          && service.created == Without(old(service.created), id)
        case Err(e) =>
          && o == Forward(e)
          && service.rows == old(service.rows)
          && service.created == old(service.created)
    {
      var existing := service.GetProductById(id);
      match existing
      case Err(e) => o := Forward(e);
      case Ok(None) => o := Respond(NotFound);
      case Ok(Some(_)) =>
        var r := service.DeleteProduct(id);
        match r
        case Ok(_) => o := Respond(Response(204, Empty));
        case Err(e) => o := Forward(e);
    }
  }

  /** Creating a product and then fetching it by the returned id answers that same product. */
  method CreateThenGet(c: ProductController, body: Json, newId: Id) returns (created: Outcome, fetched: Outcome)
    requires c.service.Valid()
    modifies c.service
    ensures c.service.Valid()
    ensures created.Respond? && OpGetById !in c.service.faults ==>
      && created.response.status == 201
      && created.response.body.One?
      && created.response.body.product.id == newId
      && Get(body, "nome") == Some(JStr(created.response.body.product.nome))
      && Get(body, "valor") == Some(JNum(created.response.body.product.valor))
      && fetched == Respond(Response(200, created.response.body))
  {
    created := c.CreateProduct(body, newId);
    fetched := c.GetProductById(newId);
  }

  /** Deleting an existing product answers 204, and a later fetch of that id answers 404. */
  method DeleteThenGet(c: ProductController, id: Id) returns (deleted: Outcome, fetched: Outcome)
    requires c.service.Valid()
    modifies c.service
    ensures c.service.Valid()
    ensures deleted.Respond? && deleted.response.status == 204 && OpGetById !in c.service.faults ==>
      deleted.response.body == Empty && fetched == Respond(NotFound)
  {
    deleted := c.DeleteProduct(id);
    fetched := c.GetProductById(id);
  }

  /** Two fetches of the same id with no write between them answer the same thing. */
  method GetTwice(c: ProductController, id: Id) returns (first: Outcome, second: Outcome)
    requires c.service.Valid()
    ensures first == second
  {
    first := c.GetProductById(id);
    second := c.GetProductById(id);
  }
}
