/** The request body for creating or updating a product
    (dto/request/ProductRequest.java): its validity constraints and its
    conversion to an entity. */
module ProductRequests {
  import opened Outcomes
  import opened Products

  datatype ProductRequest = ProductRequest(
    id: Option<int>,
    name: Option<string>,
    maker: Option<string>,
    price: Option<int>,
    imageUrl: Option<string>)

  /** Some character of `s` is above U+0020. */
  predicate HasVisibleChar(s: string)
  {
    exists i :: 0 <= i < |s| && s[i] > ' '
  }

  /** The left half of Java's `String.trim()`: the suffix of `s` left after
      dropping every leading character at or below U+0020. */
  function TrimStart(s: string): (r: string)
    ensures |r| <= |s| && r == s[|s| - |r|..]
    ensures forall i :: 0 <= i < |s| - |r| ==> s[i] <= ' '
    ensures |r| > 0 ==> r[0] > ' '
    decreases |s|
  {
    if |s| > 0 && s[0] <= ' ' then TrimStart(s[1..]) else s
  }

  /** The right half of `String.trim()`: the prefix of `s` left after
      dropping every trailing character at or below U+0020. */
  function TrimEnd(s: string): (r: string)
    ensures |r| <= |s| && r == s[..|r|]
    ensures forall i :: |r| <= i < |s| ==> s[i] <= ' '
    ensures |r| > 0 ==> r[|r| - 1] > ' '
    decreases |s|
  {
    if |s| > 0 && s[|s| - 1] <= ' ' then TrimEnd(s[..|s| - 1]) else s
  }

  /** `String.trim()`: something is left exactly when some character of
      `s` is above U+0020. */
  function Trim(s: string): (r: string)
    ensures |r| > 0 <==> HasVisibleChar(s)
  {
    var t := TrimStart(s);
    assert |t| > 0 ==> HasVisibleChar(s) by {
      if |t| > 0 {
        assert s[|s| - |t|] == t[0];
      }
    }
    TrimEnd(t)
  }

  /** `@NotBlank`, as the bean validator checks it: not null, and not empty
      once trimmed; equivalently, present with a character above U+0020. */
  function NotBlank(s: Option<string>): (b: bool)
    ensures b <==> s.Some? && HasVisibleChar(s.value)
  {
    s.Some? && |Trim(s.value)| > 0
  }

  /** The constraints on the request's fields: name and maker `@NotBlank`,
      price `@NotNull`; the image URL and the id are unconstrained. */
  function Valid(request: ProductRequest): (b: bool)
    ensures b <==>
      && request.name.Some? && HasVisibleChar(request.name.value)
      && request.maker.Some? && HasVisibleChar(request.maker.value)
      && request.price.Some?
  {
    NotBlank(request.name) && NotBlank(request.maker) && request.price.Some?
  }

  /** `toEntity`: copies name, maker, price and image URL into a new
      product, which has no id whatever the request's id. */
  function ToEntity(request: ProductRequest): (p: Product)
    ensures p.id == None
    ensures p.name == request.name && p.maker == request.maker
    ensures p.price == request.price && p.imageUrl == request.imageUrl
  {
    Build(request.name, request.maker, request.price, request.imageUrl)
  }

  /** The request's id is never carried into the entity. */
  lemma ToEntityIgnoresId(a: ProductRequest, b: ProductRequest)
    requires a.name == b.name && a.maker == b.maker
    requires a.price == b.price && a.imageUrl == b.imageUrl
    ensures ToEntity(a) == ToEntity(b)
  {
  }

  /** The entity of a valid request has a visible name and maker and a
      price; its image URL may still be null. */
  lemma ValidEntityIsComplete(request: ProductRequest)
    requires Valid(request)
    ensures ToEntity(request).name.Some? && HasVisibleChar(ToEntity(request).name.value)
    ensures ToEntity(request).maker.Some? && HasVisibleChar(ToEntity(request).maker.value)
    ensures ToEntity(request).price.Some?
  {
  }

  /** Null, empty and all-blank names are rejected; one visible character
      suffices, even surrounded by spaces. */
  lemma NotBlankExamples()
    ensures !NotBlank(None)
    ensures !NotBlank(Some(""))
    ensures !NotBlank(Some(" \t "))
    ensures NotBlank(Some(" x "))
  {
  }
}
