/** The product catalogue as values: the record kept per product, the queries
    the route handlers run over the list (`find`, `filter`, the next-id rule,
    the `??` partial update) and what they guarantee. */
module Catalog {

  /** A value that may be absent. `None` stands for both `null` and
      `undefined`: the nullish-coalescing operator treats them alike. */
  datatype Option<T> = None | Some(value: T)

  /** The price is stored and returned, never computed with. */
  type Price = int

  /** One record of the `productos` list. A field the request body did not
      supply is stored as absent (there is no validation). */
  datatype Product = Product(id: int, nombre: Option<string>, precio: Option<Price>)

  /** What a handler answers: a value, or the 404 "not found" outcome. */
  datatype Outcome<T> = Ok(value: T) | NotFound

  /** Some record carries `id`. */
  predicate Has(ps: seq<Product>, id: int)
  {
    exists i :: 0 <= i < |ps| && ps[i].id == id
  }

  /** Ids grow strictly along the list: the shape a list built only by
      creates and deletes keeps, and the one under which the next-id rule
      hands out fresh ids. */
  predicate IdsIncreasing(ps: seq<Product>)
  {
    forall i, j :: 0 <= i < j < |ps| ==> ps[i].id < ps[j].id
  }

  /** No two records share an id. */
  predicate IdsDistinct(ps: seq<Product>)
  {
    forall i, j :: 0 <= i < |ps| && 0 <= j < |ps| && i != j ==> ps[i].id != ps[j].id
  }

  /** The position of the first record with `id`, the one `find` stops at. */
  function IndexOf(ps: seq<Product>, id: int): (r: Option<nat>)
    ensures r.None? <==> !Has(ps, id)
    ensures r.Some? ==> r.value < |ps| && ps[r.value].id == id
    ensures r.Some? ==> forall j :: 0 <= j < r.value ==> ps[j].id != id
  {
    if |ps| == 0 then None
    else if ps[0].id == id then Some(0)
    else
      match IndexOf(ps[1..], id)
      case None => None
      case Some(k) => Some(k + 1)
  }

  /** `productos.find(p => p.id === id)`: the first record with `id`. */
  function Find(ps: seq<Product>, id: int): (r: Option<Product>)
    ensures r.None? <==> !Has(ps, id)
    ensures r.Some? ==> r.value.id == id
    ensures r.Some? ==> exists i :: 0 <= i < |ps| && ps[i] == r.value && forall j :: 0 <= j < i ==> ps[j].id != id
  {
    match IndexOf(ps, id)
    case None => None
    case Some(i) => Some(ps[i])
  }

  /** The id a create assigns: the last record's id plus one, or 1 on an
      empty list. It is not the largest id plus one. */
  function NextId(ps: seq<Product>): (r: int)
    ensures IdsIncreasing(ps) ==> forall i :: 0 <= i < |ps| ==> ps[i].id < r
    ensures IdsIncreasing(ps) ==> !Has(ps, r)
  {
    if |ps| == 0 then 1 else ps[|ps| - 1].id + 1
  }

  /** The record a create appends for the body fields `nombre` and `precio`. */
  function NewProduct(ps: seq<Product>, nombre: Option<string>, precio: Option<Price>): (r: Product)
    ensures r.nombre == nombre && r.precio == precio
    ensures IdsIncreasing(ps) ==> IdsIncreasing(ps + [r])
  {
    Product(NextId(ps), nombre, precio)
  }

  /** `supplied ?? current`: the supplied value unless it is null or undefined. */
  function Coalesce<T>(supplied: Option<T>, current: Option<T>): Option<T>
  {
    if supplied.Some? then supplied else current
  }

  /** The update applied to one record: the id stays, each field is replaced
      exactly when a value for it is supplied. */
  function Patch(p: Product, nombre: Option<string>, precio: Option<Price>): (r: Product)
    ensures r.id == p.id
    ensures r.nombre == (if nombre.Some? then nombre else p.nombre)
    ensures r.precio == (if precio.Some? then precio else p.precio)
  {
    p.(nombre := Coalesce(nombre, p.nombre), precio := Coalesce(precio, p.precio))
  }

  /** The list after an update of `id`: the first record with that id is
      patched, everything else stays where and as it was. */
  function Updated(ps: seq<Product>, id: int, nombre: Option<string>, precio: Option<Price>): (r: seq<Product>)
    ensures |r| == |ps|
    ensures forall k :: 0 <= k < |ps| ==> r[k].id == ps[k].id
    ensures !Has(ps, id) ==> r == ps
    ensures Has(ps, id) ==> exists i :: 0 <= i < |ps| && ps[i].id == id && (forall j :: 0 <= j < i ==> ps[j].id != id)
                                       && r == ps[i := Patch(ps[i], nombre, precio)]
  {
    match IndexOf(ps, id)
    case None => ps
    case Some(i) => ps[i := Patch(ps[i], nombre, precio)]
  }

  /** `productos.filter(p => p.id !== id)`: every record with `id` removed. */
  function Without(ps: seq<Product>, id: int): (r: seq<Product>)
    ensures forall q :: q in r <==> q in ps && q.id != id
    ensures |r| <= |ps|
    ensures !Has(r, id)
    ensures Has(ps, id) ==> |r| < |ps|
    ensures !Has(ps, id) ==> r == ps
  {
    if |ps| == 0 then []
    else if ps[0].id == id then Without(ps[1..], id)
    else [ps[0]] + Without(ps[1..], id)
  }

  /** Strictly increasing ids are distinct ids. */
  lemma IncreasingIdsAreDistinct(ps: seq<Product>)
    requires IdsIncreasing(ps)
    ensures IdsDistinct(ps)
  {
    forall i, j | 0 <= i < |ps| && 0 <= j < |ps| && i != j
      ensures ps[i].id != ps[j].id
    {
      if i < j { assert ps[i].id < ps[j].id; } else { assert ps[j].id < ps[i].id; }
    }
  }

  /** Under distinct ids the first match is the only one, so the record that
      `find` returns is the record with that id. */
  lemma FindIsTheOnlyMatch(ps: seq<Product>, id: int, k: nat)
    requires IdsDistinct(ps)
    requires k < |ps| && ps[k].id == id
    ensures Find(ps, id) == Some(ps[k])
  {
    var i := IndexOf(ps, id).value;
    assert k >= i;
    assert ps[i].id == ps[k].id;
  }

  /** Filtering distributes over concatenation: survivors keep their relative
      order. */
  lemma {:induction false} WithoutConcat(a: seq<Product>, b: seq<Product>, id: int)
    ensures Without(a + b, id) == Without(a, id) + Without(b, id)
  {
    if |a| == 0 {
      assert a + b == b;
    } else {
      assert (a + b)[1..] == a[1..] + b;
      WithoutConcat(a[1..], b, id);
    }
  }

  /** No record before the first match carries the id. */
  lemma NoMatchBeforeFirst(ps: seq<Product>, id: int, i: nat)
    requires IndexOf(ps, id) == Some(i)
    ensures !Has(ps[..i], id)
  {
    forall k | 0 <= k < i ensures ps[..i][k].id != id {
      assert ps[..i][k] == ps[k];
    }
  }

  /** Under strictly increasing ids no record after position `i` carries its id. */
  lemma NoMatchAfter(ps: seq<Product>, i: nat)
    requires IdsIncreasing(ps) && i < |ps|
    ensures !Has(ps[i + 1..], ps[i].id)
  {
    var back := ps[i + 1..];
    forall k | 0 <= k < |back| ensures back[k].id != ps[i].id {
      assert back[k] == ps[i + 1 + k];
    }
  }

  /** Under strictly increasing ids a delete of a present id removes exactly
      one record, the one `find` stops at, and keeps the rest in order. */
  lemma WithoutRemovesOne(ps: seq<Product>, id: int)
    requires IdsIncreasing(ps) && Has(ps, id)
    ensures var i := IndexOf(ps, id).value; Without(ps, id) == ps[..i] + ps[i + 1..]
    ensures |Without(ps, id)| == |ps| - 1
  {
    var i := IndexOf(ps, id).value;
    var front, rest := ps[..i], ps[i..];
    assert ps == front + rest;
    NoMatchBeforeFirst(ps, id, i);
    NoMatchAfter(ps, i);
    assert rest[0].id == id && rest[1..] == ps[i + 1..];
    WithoutConcat(front, rest, id);
    assert Without(front, id) == front;
    assert Without(rest, id) == Without(ps[i + 1..], id) == ps[i + 1..];
  }

  /** A delete keeps ids strictly increasing. */
  lemma {:induction false} WithoutKeepsIdsIncreasing(ps: seq<Product>, id: int)
    requires IdsIncreasing(ps)
    ensures IdsIncreasing(Without(ps, id))
  {
    if |ps| > 0 {
      var tail := Without(ps[1..], id);
      WithoutKeepsIdsIncreasing(ps[1..], id);
      if ps[0].id != id {
        forall k | 0 <= k < |tail|
          ensures ps[0].id < tail[k].id
        {
          assert tail[k] in ps[1..];
        }
      }
    }
  }

  /** An update keeps the list's ids, so it keeps them strictly increasing. */
  lemma UpdatedKeepsIdsIncreasing(ps: seq<Product>, id: int, nombre: Option<string>, precio: Option<Price>)
    requires IdsIncreasing(ps)
    ensures IdsIncreasing(Updated(ps, id, nombre, precio))
  {
    var r := Updated(ps, id, nombre, precio);
    forall i, j | 0 <= i < j < |r|
      ensures r[i].id < r[j].id
    {
      assert r[i].id == ps[i].id && r[j].id == ps[j].id;
    }
  }

  /** An update that supplies neither field changes nothing. */
  lemma {:induction false} EmptyUpdateIsIdentity(ps: seq<Product>, id: int)
    ensures Updated(ps, id, None, None) == ps
  {
    match IndexOf(ps, id)
    case None =>
    case Some(i) =>
      assert Patch(ps[i], None, None) == ps[i];
  }

  /** The last+1 rule can hand out again the id of a record just deleted:
      delete the last record of a list whose ids increase from 1 or more
      (as ids assigned from an empty list do), and the next create gets an
      id no greater than the deleted one, exactly the deleted one when the
      record before it carried the id just below. */
  lemma {:induction false} DeletedLastIdMayBeReissued(ps: seq<Product>)
    requires IdsIncreasing(ps) && |ps| > 0 && ps[0].id >= 1
    ensures NextId(Without(ps, ps[|ps| - 1].id)) <= ps[|ps| - 1].id
    ensures |ps| > 1 && ps[|ps| - 2].id + 1 == ps[|ps| - 1].id ==>
              NextId(Without(ps, ps[|ps| - 1].id)) == ps[|ps| - 1].id
  {
    var n := |ps|;
    var last := ps[n - 1];
    assert IndexOf(ps, last.id) == Some(n - 1) by {
      var k := IndexOf(ps, last.id).value;
      assert ps[k].id == last.id;
    }
    WithoutRemovesOne(ps, last.id);
    var front := ps[..n - 1];
    assert Without(ps, last.id) == front by {
      assert ps[n..] == [];
    }
    if n > 1 {
      assert NextId(front) == front[n - 2].id + 1;
      assert front[n - 2].id == ps[n - 2].id < last.id;
    } else {
      assert last.id >= 1;
    }
  }
}
