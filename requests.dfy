/** The five product routes as a function of the list they run against: the
    answer each request gets and the list it leaves behind, and what holds of
    every list a series of requests can reach. */
module Requests {
  import opened Catalog

  /** A request to one of the product routes, with the path id already
      parsed and the body fields `nombre` and `precio` as they arrived. */
  datatype Request =
    | ListAll                                                        // GET /productos
    | GetOne(id: int)                                                // GET /productos/:id
    | Post(nombre: Option<string>, precio: Option<Price>)            // POST /productos
    | Put(id: int, nombre: Option<string>, precio: Option<Price>)    // PUT /productos/:id
    | Remove(id: int)                                                // DELETE /productos/:id

  /** The answer a route gives, without its HTTP framing: 200 with the list,
      200 with a record, 201 with the new record, 200 with the updated
      record, 204, or 404. */
  datatype Response =
    | Listed(title: string, productos: seq<Product>, total: int)
    | Found(producto: Product)
    | Created(producto: Product)
    | Changed(producto: Product)
    | Deleted
    | NoSuchProduct

  const ListTitle: string := "Lista de productos"

  /** The requests that name a record by id. */
  predicate NamesId(req: Request)
  {
    req.GetOne? || req.Put? || req.Remove?
  }

  /** The list after `req` has been handled. */
  function Step(ps: seq<Product>, req: Request): (r: seq<Product>)
    ensures req.Post? ==> |r| == |ps| + 1 && r[..|ps|] == ps
    ensures req.Remove? && Has(ps, req.id) ==> |r| < |ps| && !Has(r, req.id)
    ensures !req.Post? && !(req.Remove? && Has(ps, req.id)) ==> |r| == |ps|
    ensures NamesId(req) && !Has(ps, req.id) ==> r == ps
    ensures req.ListAll? || req.GetOne? ==> r == ps
    ensures req.Post? ==> r[|ps|] == NewProduct(ps, req.nombre, req.precio)
    ensures req.Put? ==> r == Updated(ps, req.id, req.nombre, req.precio)
    ensures req.Remove? ==> r == Without(ps, req.id)
  {
    match req
    case ListAll => ps
    case GetOne(_) => ps
    case Post(nombre, precio) => ps + [NewProduct(ps, nombre, precio)]
    case Put(id, nombre, precio) => Updated(ps, id, nombre, precio)
    case Remove(id) => if Has(ps, id) then Without(ps, id) else ps
  }

  /** The answer `req` gets from the list `ps`. */
  function Respond(ps: seq<Product>, req: Request): (r: Response)
    ensures r.NoSuchProduct? <==> NamesId(req) && !Has(ps, req.id)
    ensures req.ListAll? ==> r.Listed? && r.title == ListTitle
    ensures req.GetOne? && Has(ps, req.id) ==> r.Found?
    ensures req.Post? ==> r.Created?
    ensures req.Put? && Has(ps, req.id) ==> r.Changed?
    ensures req.Remove? && Has(ps, req.id) ==> r.Deleted?
    ensures r.Listed? ==> r.productos == ps && r.total == |ps|
    ensures r.Found? ==> req.GetOne? && Find(ps, req.id) == Some(r.producto)
    ensures r.Created? ==> Step(ps, req) == ps + [r.producto]
    ensures r.Changed? ==> req.Put? && r.producto.id == req.id && Find(Step(ps, req), req.id) == Some(r.producto)
  {
    match req
    case ListAll => Listed(ListTitle, ps, |ps|)
    case GetOne(id) =>
      (match Find(ps, id)
       case None => NoSuchProduct
       case Some(p) => Found(p))
    case Post(nombre, precio) => Created(NewProduct(ps, nombre, precio))
    case Put(id, nombre, precio) =>
      (match IndexOf(ps, id)
       case None => NoSuchProduct
       case Some(i) => Changed(Patch(ps[i], nombre, precio)))
    case Remove(id) => if Has(ps, id) then Deleted else NoSuchProduct
  }

  /** The list after a series of requests, handled in order. */
  function Serve(ps: seq<Product>, reqs: seq<Request>): (r: seq<Product>)
    ensures |reqs| == 0 ==> r == ps
    decreases |reqs|
  {
    if |reqs| == 0 then ps else Serve(Step(ps, reqs[0]), reqs[1..])
  }

  /** Requests are handled in order: the last one of a series runs against
      the list all the earlier ones left behind. */
  lemma {:induction false} ServeSnoc(ps: seq<Product>, reqs: seq<Request>, req: Request)
    ensures Serve(ps, reqs + [req]) == Step(Serve(ps, reqs), req)
    decreases |reqs|
  {
    if |reqs| == 0 {
      assert reqs + [req] == [req];
      assert [req][1..] == [];
    } else {
      assert (reqs + [req])[0] == reqs[0];
      assert (reqs + [req])[1..] == reqs[1..] + [req];
      ServeSnoc(Step(ps, reqs[0]), reqs[1..], req);
    }
  }

  /** Ids at least 1, as the next-id rule assigns them from an empty list. */
  predicate IdsPositive(ps: seq<Product>)
  {
    forall i :: 0 <= i < |ps| ==> ps[i].id >= 1
  }

  /** Every request keeps ids strictly increasing and at least 1. */
  lemma StepKeepsIdsIncreasing(ps: seq<Product>, req: Request)
    requires IdsIncreasing(ps)
    ensures IdsIncreasing(Step(ps, req))
    ensures IdsPositive(ps) ==> IdsPositive(Step(ps, req))
  {
    match req
    case ListAll =>
    case GetOne(_) =>
    case Post(nombre, precio) =>
      var p := NewProduct(ps, nombre, precio);
      if IdsPositive(ps) {
        assert p.id >= 1 by {
          if |ps| > 0 { assert ps[|ps| - 1].id >= 1; }
        }
      }
    case Put(id, nombre, precio) =>
      UpdatedKeepsIdsIncreasing(ps, id, nombre, precio);
    case Remove(id) =>
      if Has(ps, id) {
        WithoutKeepsIdsIncreasing(ps, id);
        WithoutKeepsIdsPositive(ps, id);
      }
  }

  /** A delete keeps ids at least 1: its survivors are records of the list. */
  lemma WithoutKeepsIdsPositive(ps: seq<Product>, id: int)
    ensures IdsPositive(ps) ==> IdsPositive(Without(ps, id))
  {
    var r := Without(ps, id);
    if IdsPositive(ps) {
      forall k | 0 <= k < |r| ensures r[k].id >= 1 {
        assert r[k] in ps;
      }
    }
  }

  /** A series of requests keeps ids strictly increasing and at least 1. */
  lemma {:induction false} ServeKeepsIdsIncreasing(ps: seq<Product>, reqs: seq<Request>)
    requires IdsIncreasing(ps)
    ensures IdsIncreasing(Serve(ps, reqs))
    ensures IdsPositive(ps) ==> IdsPositive(Serve(ps, reqs))
    decreases |reqs|
  {
    if |reqs| > 0 {
      StepKeepsIdsIncreasing(ps, reqs[0]);
      ServeKeepsIdsIncreasing(Step(ps, reqs[0]), reqs[1..]);
    }
  }

  /** From an empty list (a first start, or a file that could not be read)
      every list the routes can reach has distinct ids, all at least 1. */
  lemma ServeFromEmptyHasDistinctIds(reqs: seq<Request>)
    ensures IdsDistinct(Serve([], reqs))
    ensures IdsPositive(Serve([], reqs))
  {
    ServeKeepsIdsIncreasing([], reqs);
    IncreasingIdsAreDistinct(Serve([], reqs));
  }

  /** A list with two records in decreasing id order, as a file may hold:
      the next-id rule then reissues the first record's id. */
  lemma UnorderedListGetsDuplicateId()
    ensures var ps := [Product(2, None, None), Product(1, None, None)];
            var r := Step(ps, Post(None, None));
            !IdsDistinct(r) && r[0].id == r[2].id
  {
    var ps := [Product(2, None, None), Product(1, None, None)];
    var r := Step(ps, Post(None, None));
    assert r[0].id == 2 && r[2].id == 2;
  }
}
