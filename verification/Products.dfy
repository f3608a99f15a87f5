/**
 * The product record the API returns and the pages display and edit.
 */
module Products {
  import opened JsNumber

  /**
   * A product. `price` is a JavaScript number (an exact decimal here), and
   * `sales_location` (`"event"` or `"store"`) is read by the edit page although
   * the record's declared type does not list it.
   */
  datatype Product = Product(
    id: int,
    name: string,
    description: string,
    price: Num,
    active: bool,
    path_image: string,
    ean: string,
    created_at: string,
    sales_location: string)
}
