/** The product service (application/ProductService.java) over an abstract
    product store. Every id-based operation looks the product up first and
    fails with ProductNotFound before touching the store. */
module ProductService {
  import opened Outcomes
  import opened Products
  import opened ProductRequests
  import Sets

  /** The product table, by id. */
  type ProductStore = map<int, Product>

  /** Every stored product carries the id it is stored under. */
  ghost predicate WellFormed(store: ProductStore)
  {
    forall k :: k in store ==> store[k].id == Some(k)
  }

  /** `findById(id).orElseThrow(...)`. */
  function FindProduct(store: ProductStore, id: int): (r: Result<Product>)
    ensures r.Ok? <==> id in store
    ensures r.Ok? ==> r.value == store[id]
    ensures r.Err? ==> r.failure == ProductNotFound(id)
  {
    if id in store then Ok(store[id]) else Err(ProductNotFound(id))
  }

  /** `getProducts` (`findAll`): one entry per stored product, in the
      store's own order; `ids` names the entry each position came from.
      An empty store gives an empty list. */
  method GetProducts(store: ProductStore) returns (r: seq<Product>, ghost ids: seq<int>)
    ensures |r| == |ids| == |store|
    ensures forall i :: 0 <= i < |ids| ==> ids[i] in store && r[i] == store[ids[i]]
    ensures forall i, j :: 0 <= i < j < |ids| ==> ids[i] != ids[j]
    ensures forall k :: k in store ==> k in ids
    ensures forall p :: p in r ==> p in store.Values
    ensures forall k :: k in store ==> store[k] in r
  {
    r, ids := [], [];
    var remaining := store.Keys;
    while remaining != {}
      invariant remaining <= store.Keys
      invariant |r| == |ids|
      invariant |ids| + |remaining| == |store.Keys|
      invariant forall i :: 0 <= i < |ids| ==> ids[i] in store && ids[i] !in remaining && r[i] == store[ids[i]]
      invariant forall i, j :: 0 <= i < j < |ids| ==> ids[i] != ids[j]
      invariant forall k :: k in store && k !in remaining ==> k in ids
      decreases |remaining|
    {
      Sets.NonEmptyHasMember(remaining);
      var k :| k in remaining;
      r, ids := r + [store[k]], ids + [k];
      remaining := remaining - {k};
    }
    assert |store.Keys| == |store|;
    forall p | p in r ensures p in store.Values {
      var i :| 0 <= i < |r| && r[i] == p;
      assert store[ids[i]] in store.Values;
    }
    forall k | k in store ensures store[k] in r {
      var i :| 0 <= i < |ids| && ids[i] == k;
      assert r[i] == store[k];
    }
  }

  /** `getProduct`. */
  function GetProduct(store: ProductStore, id: int): (r: Result<Product>)
    ensures r.Ok? <==> id in store
    ensures r.Ok? ==> r.value == store[id]
    ensures r.Err? ==> r.failure == ProductNotFound(id)
  {
    FindProduct(store, id)
  }

  /** `createProduct`: saves the request's fields as a new product under
      the id the store assigns (`newId`, never one it already holds). */
  function CreateProduct(store: ProductStore, request: ProductRequest, newId: int): (r: Step<Product, ProductStore>)
    requires newId !in store
    ensures r.result.Ok?
    ensures
      var p := r.result.value;
      && p.id == Some(newId)
      && p.name == request.name && p.maker == request.maker
      && p.price == request.price && p.imageUrl == request.imageUrl
      && r.store == store[newId := p]
  {
    var saved := ToEntity(request).(id := Some(newId));
    Step(Ok(saved), store[newId := saved])
  }

  /** `updateProduct`: overwrites all four fields of an existing product
      with the request's and saves it under the same id. */
  function UpdateProduct(store: ProductStore, id: int, request: ProductRequest): (r: Step<Product, ProductStore>)
    ensures r.result.Err? <==> id !in store
    ensures r.result.Err? ==> r.result.failure == ProductNotFound(id) && r.store == store
    ensures r.result.Ok? ==>
      var p := r.result.value;
      && p.id == store[id].id
      && p.name == request.name && p.maker == request.maker
      && p.price == request.price && p.imageUrl == request.imageUrl
      && r.store == store[id := p]
  {
    match FindProduct(store, id)
    case Err(e) => Step(Err(e), store)
    case Ok(product) =>
      var updated := Products.ChangeWith(product, ToEntity(request));
      Step(Ok(updated), store[id := updated])
  }

  /** `deleteProduct`: removes an existing product and returns it. */
  function DeleteProduct(store: ProductStore, id: int): (r: Step<Product, ProductStore>)
    ensures r.result.Err? <==> id !in store
    ensures r.result.Err? ==> r.result.failure == ProductNotFound(id) && r.store == store
    ensures r.result.Ok? ==>
      && r.result.value == store[id]
      && id !in r.store
      && r.store.Keys == store.Keys - {id}
      && forall k :: k in r.store ==> r.store[k] == store[k]
  {
    match FindProduct(store, id)
    case Err(e) => Step(Err(e), store)
    case Ok(product) => Step(Ok(product), store - {id})
  }

  /** What was created can be read back under its new id. */
  lemma CreateThenGet(store: ProductStore, request: ProductRequest, newId: int)
    requires newId !in store
    ensures GetProduct(CreateProduct(store, request, newId).store, newId)
         == Ok(CreateProduct(store, request, newId).result.value)
  {
  }

  /** What an update returns is what is read back afterwards. */
  lemma UpdateThenGet(store: ProductStore, id: int, request: ProductRequest)
    requires id in store
    ensures GetProduct(UpdateProduct(store, id, request).store, id)
         == UpdateProduct(store, id, request).result
  {
  }

  /** After a delete, the id is gone: reading, updating or deleting it
      again fails with NotFound. */
  lemma DeleteThenNotFound(store: ProductStore, id: int, request: ProductRequest)
    requires id in store
    ensures GetProduct(DeleteProduct(store, id).store, id) == Err(ProductNotFound(id))
    ensures UpdateProduct(DeleteProduct(store, id).store, id, request).result == Err(ProductNotFound(id))
    ensures DeleteProduct(DeleteProduct(store, id).store, id).result == Err(ProductNotFound(id))
  {
  }

  /** Repeating an update with the same request changes nothing more. */
  lemma UpdateIdempotent(store: ProductStore, id: int, request: ProductRequest)
    ensures UpdateProduct(UpdateProduct(store, id, request).store, id, request)
         == UpdateProduct(store, id, request)
  {
    var once := UpdateProduct(store, id, request);
    if id in store {
      assert once.store[id := once.result.value] == once.store;
    }
  }

  /** Create, update and delete keep every product under its own id. */
  lemma OperationsPreserveWellFormed(store: ProductStore, id: int, request: ProductRequest, newId: int)
    requires WellFormed(store)
    requires newId !in store
    ensures WellFormed(CreateProduct(store, request, newId).store)
    ensures WellFormed(UpdateProduct(store, id, request).store)
    ensures WellFormed(DeleteProduct(store, id).store)
  {
  }

  /** Only the id an operation names is affected: every other entry of
      the store is left as it was. */
  lemma OperationsAreLocal(store: ProductStore, id: int, request: ProductRequest, newId: int, other: int)
    requires newId !in store
    requires other in store && other != id && other != newId
    ensures other in CreateProduct(store, request, newId).store
    ensures CreateProduct(store, request, newId).store[other] == store[other]
    ensures other in UpdateProduct(store, id, request).store
    ensures UpdateProduct(store, id, request).store[other] == store[other]
    ensures other in DeleteProduct(store, id).store
    ensures DeleteProduct(store, id).store[other] == store[other]
  {
  }

  /** Create, overwrite, delete and re-read one product, starting from an
      empty store, with the field values of the create and update tests. */
  lemma WalkThrough()
    ensures
      var created := CreateProduct(map[], ProductRequest(None, Some("인형"), Some("코돌쓰"), Some(5000), Some("kodolth.png")), 2);
      var edit := ProductRequest(None, Some("동물인형"), Some("코끼리"), Some(50000), Some("adidas.png"));
      var updated := UpdateProduct(created.store, 2, edit);
      var deleted := DeleteProduct(updated.store, 2);
      && created.result == Ok(Product(Some(2), Some("인형"), Some("코돌쓰"), Some(5000), Some("kodolth.png")))
      && updated.result == Ok(Product(Some(2), Some("동물인형"), Some("코끼리"), Some(50000), Some("adidas.png")))
      && deleted.result == updated.result
      && GetProduct(deleted.store, 2) == Err(ProductNotFound(2))
  {
  }
}
