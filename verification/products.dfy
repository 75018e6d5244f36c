/** The Product entity (domain/Product.java). */
module Products {
  import opened Outcomes

  /** `id` is None until the store assigns one; every other field is a
      nullable Java reference. */
  datatype Product = Product(
    id: Option<int>,
    name: Option<string>,
    maker: Option<string>,
    price: Option<int>,
    imageUrl: Option<string>)

  /** The builder constructor: stores the four fields as given and never
      sets an id. An omitted `imageUrl` is passed as None. */
  function Build(name: Option<string>, maker: Option<string>, price: Option<int>, imageUrl: Option<string>): (p: Product)
    ensures p.id == None
    ensures p.name == name && p.maker == maker && p.price == price && p.imageUrl == imageUrl
  {
    Product(None, name, maker, price, imageUrl)
  }

  /** The update applied by the product service: a full overwrite of name,
      maker, price and image URL with the source's values, nulls included,
      keeping the product's own id. */
  function ChangeWith(product: Product, source: Product): (r: Product)
    ensures r.id == product.id
    ensures r.name == source.name && r.maker == source.maker
    ensures r.price == source.price && r.imageUrl == source.imageUrl
  {
    source.(id := product.id)
  }

  /** A built product reads back the values it was built from, whatever
      product it then overwrites. */
  lemma ChangeWithBuiltSource(product: Product, name: Option<string>, maker: Option<string>,
                              price: Option<int>, imageUrl: Option<string>)
    ensures ChangeWith(product, Build(name, maker, price, imageUrl))
         == Product(product.id, name, maker, price, imageUrl)
  {
  }

  /** A full overwrite forgets everything but the id: the old field values
      do not influence the result. */
  lemma ChangeWithForgetsOldValues(p: Product, q: Product, source: Product)
    requires p.id == q.id
    ensures ChangeWith(p, source) == ChangeWith(q, source)
  {
  }

  lemma ChangeWithIdempotent(product: Product, source: Product)
    ensures ChangeWith(ChangeWith(product, source), source) == ChangeWith(product, source)
  {
  }
}
