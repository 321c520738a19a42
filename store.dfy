/** The in-memory product store: the module-level `productos` list that the
    route handlers read, grow with `push`, change field by field and replace
    with a filtered copy. */
module ProductStore {
  import opened Catalog
  import opened Requests

  class Store {
    /** The records, in the order they were loaded and created. */
    var productos: seq<Product>

    /** The store as it stands once the file has been read: `loaded` is
        whatever the read produced (empty when it failed). */
    constructor (loaded: seq<Product>)
      ensures productos == loaded
    {
      productos := loaded;
    }

    /** GET /productos: every record and their number. */
    function List(): (r: Response)
      reads this
      ensures r.Listed? && r.title == ListTitle
      ensures r.productos == productos && r.total == |productos|
    {
      Listed(ListTitle, productos, |productos|)
    }

    /** GET /productos/:id: the first record with `id`, or not found. */
    function Get(id: int): (r: Outcome<Product>)
      reads this
      ensures r.NotFound? <==> !Has(productos, id)
      ensures r.Ok? ==> Find(productos, id) == Some(r.value)
    {
      match Find(productos, id)
      case None => NotFound
      case Some(p) => Ok(p)
    }

    /** POST /productos: append a record with the next id and the body's
        fields, and answer with it. */
    method Create(nombre: Option<string>, precio: Option<Price>) returns (nuevo: Product)
      modifies this
      ensures nuevo == Product(NextId(old(productos)), nombre, precio)
      ensures productos == old(productos) + [nuevo]
      ensures IdsIncreasing(old(productos)) ==> IdsIncreasing(productos) && !Has(old(productos), nuevo.id)
    {
      var id := if |productos| > 0 then productos[|productos| - 1].id + 1 else 1;
      nuevo := Product(id, nombre, precio);
      productos := productos + [nuevo];
    }

    /** PUT /productos/:id: overwrite the supplied fields of the first record
        with `id`, and answer with it; not found leaves the list alone. */
    method Update(id: int, nombre: Option<string>, precio: Option<Price>) returns (r: Outcome<Product>)
      modifies this
      ensures r.NotFound? <==> !Has(old(productos), id)
      ensures productos == Updated(old(productos), id, nombre, precio)
      ensures r.Ok? ==> r.value == Patch(Find(old(productos), id).value, nombre, precio)
      ensures r.Ok? ==> Find(productos, id) == Some(r.value)
      ensures IdsIncreasing(old(productos)) ==> IdsIncreasing(productos)
    {
      var found := IndexOf(productos, id);
      if found.None? {
        return NotFound;
      }
      var i := found.value;
      var producto := productos[i];
      producto := producto.(nombre := Coalesce(nombre, producto.nombre));
      producto := producto.(precio := Coalesce(precio, producto.precio));
      productos := productos[i := producto];
      r := Ok(producto);
      if IdsIncreasing(old(productos)) {
        UpdatedKeepsIdsIncreasing(old(productos), id, nombre, precio);
      }
    }

    /** DELETE /productos/:id: drop every record with `id`; not found leaves
        the list alone. */
    method Delete(id: int) returns (r: Outcome<()>)
      modifies this
      ensures r.NotFound? <==> !Has(old(productos), id)
      ensures productos == Without(old(productos), id)
      ensures r.Ok? ==> |productos| < |old(productos)| && !Has(productos, id)
      ensures IdsIncreasing(old(productos)) ==> IdsIncreasing(productos)
      ensures IdsIncreasing(old(productos)) && r.Ok? ==> |productos| == |old(productos)| - 1
    {
      if Find(productos, id).None? {
        return NotFound;
      }
      productos := Without(productos, id);
      r := Ok(());
      if IdsIncreasing(old(productos)) {
        WithoutKeepsIdsIncreasing(old(productos), id);
        WithoutRemovesOne(old(productos), id);
      }
    }

    /** One request through its route: the answer and the new list are those
        of the request model. */
    method Handle(req: Request) returns (resp: Response)
      modifies this
      ensures resp == Respond(old(productos), req)
      ensures productos == Step(old(productos), req)
    {
      match req
      case ListAll =>
        resp := List();
      case GetOne(id) =>
        var r := Get(id);
        resp := if r.Ok? then Found(r.value) else NoSuchProduct;
      case Post(nombre, precio) =>
        var nuevo := Create(nombre, precio);
        resp := Created(nuevo);
      case Put(id, nombre, precio) =>
        var r := Update(id, nombre, precio);
        resp := if r.Ok? then Changed(r.value) else NoSuchProduct;
      case Remove(id) =>
        var r := Delete(id);
        resp := if r.Ok? then Deleted else NoSuchProduct;
    }
  }

  /** From an empty store: create "A" at price 10, read it back by id 1,
      delete it, and find it gone; deleting again is not found. */
  method ScenarioFromEmpty()
  {
    var store := new Store([]);
    var nuevo := store.Create(Some("A"), Some(10));
    assert nuevo == Product(1, Some("A"), Some(10));
    var got := store.Get(1);
    assert got == Ok(Product(1, Some("A"), Some(10)));
    var gone := store.Delete(1);
    assert gone.Ok?;
    got := store.Get(1);
    assert got.NotFound?;
    gone := store.Delete(1);
    assert gone.NotFound?;
  }
}
