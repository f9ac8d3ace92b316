/** The product catalogue: a table of products keyed by id, with lookup,
    creation (insert or replace) and update of an existing entry. */
module ProductServices {
  import opened Errors
  import opened Entities

  /** A product as the controller hands it over: the id is absent when the
      client asks for a new product, and the store then assigns one. */
  datatype ProductDto = ProductDto(id: Option<string>, name: string, price: real, productType: ProductType)

  /** The product a transfer object becomes once it has the id `id`. */
  function WithId(dto: ProductDto, id: string): (p: Product)
    ensures p.id == id && p.name == dto.name && p.price == dto.price && p.productType == dto.productType
  {
    Product(id, dto.name, dto.price, dto.productType)
  }

  /** The transfer object of a stored product. */
  function ToDto(p: Product): (dto: ProductDto)
    ensures WithId(dto, p.id) == p && dto.id == Some(p.id)
  {
    ProductDto(Some(p.id), p.name, p.price, p.productType)
  }

  class ProductService {
    /** The product table, keyed by id. */
    var products: map<string, Product>

    /** Every product is stored under its own id. */
    ghost predicate Valid()
      reads this
    {
      forall id :: id in products ==> products[id].id == id
    }

    constructor ()
      ensures products == map[] && Valid()
    {
      products := map[];
    }

    /** `getProductById`: the product stored under `id`, or
        PRODUCT_NOT_FOUND when there is none. */
    function GetProductById(id: string): (r: Result<Product>)
      reads this
      ensures r.Ok? <==> id in products
      ensures r.Ok? ==> r.value == products[id] && (Valid() ==> r.value.id == id)
      ensures r.Err? ==> r.error == ProductNotFound
    {
      if id in products then Ok(products[id]) else Err(ProductNotFound)
    }

    /** `getAllProducts`: every stored product, each once. The table's
        iteration order is not modelled. */
    function AllProducts(): (r: set<Product>)
      reads this
      ensures forall id :: id in products ==> products[id] in r
      ensures Valid() ==> forall p :: p in r ==> p.id in products && products[p.id] == p
    {
      set id | id in products :: products[id]
    }

    /** `createProduct`: stores the product under its own id, or under the
        id the store assigns when it has none, replacing any product already
        there, and returns it with its id. */
    method CreateProduct(dto: ProductDto, assignedId: string) returns (created: ProductDto)
      requires Valid()
      requires dto.id.None? ==> assignedId !in products
      modifies this
      ensures Valid()
      ensures var id := if dto.id.Some? then dto.id.value else assignedId;
        && products == old(products)[id := WithId(dto, id)]
        && created == ToDto(WithId(dto, id))
        && GetProductById(id) == Ok(WithId(dto, id))
    {
      var id := if dto.id.Some? then dto.id.value else assignedId;
      var product := WithId(dto, id);
      products := products[id := product];
      created := ToDto(product);
    }

    /** `updateProduct`: overwrites the name, price and type of the product
        stored under the transfer object's id, keeping that id. An unknown id
        gives PRODUCT_NOT_FOUND and nothing is saved. */
    method UpdateProduct(dto: ProductDto) returns (r: Result<ProductDto>)
      requires Valid()
      requires dto.id.Some?
      modifies this
      ensures Valid()
      ensures dto.id.value in old(products) <==> r.Ok?
      ensures r.Err? ==> r.error == ProductNotFound && products == old(products)
      ensures r.Ok? ==> (products == old(products)[dto.id.value := WithId(dto, dto.id.value)]
                         && r.value == dto)
      ensures forall id :: id != dto.id.value ==> (id in products <==> id in old(products))
      ensures forall id :: id != dto.id.value && id in products ==> products[id] == old(products)[id]
    {
      var found := GetProductById(dto.id.value);
      if found.Err? {
        return Err(found.error);
      }
      var product := found.value.(name := dto.name, price := dto.price, productType := dto.productType);
      products := products[product.id := product];
      r := Ok(ToDto(product));
    }
  }

  /** The service's scenarios: a created product is found by its id, an update
      of a stored product replaces it there, and an unknown id is not found. */
  method ProductScenario() returns (created: ProductDto, updated: Result<ProductDto>, missing: Result<Product>)
    ensures created == ProductDto(Some("p1"), "Phone", 500.0, Electronics)
    ensures updated == Ok(ProductDto(Some("p1"), "Phone X", 450.0, Electronics))
    ensures missing == Err(ProductNotFound)
  {
    var service := new ProductService();
    created := service.CreateProduct(ProductDto(None, "Phone", 500.0, Electronics), "p1");
    updated := service.UpdateProduct(ProductDto(Some("p1"), "Phone X", 450.0, Electronics));
    missing := service.GetProductById("p2");
  }
}
