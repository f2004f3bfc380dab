/** The records the pages receive from the server, reduced to the fields the
    pages read. Decimal columns arrive as text. */
module Schema {
  import opened Wrappers

  /** A restaurant; `averagePrice` is a nullable decimal column. */
  datatype Restaurant = Restaurant(
    id: string,
    name: string,
    description: string,
    cuisine: string,
    averagePrice: Option<string>)

  /** A menu item; `description` and `imageUrl` are nullable text columns. */
  datatype MenuItem = MenuItem(
    id: string,
    restaurantId: string,
    name: string,
    description: Option<string>,
    price: string,
    category: string,
    imageUrl: Option<string>)
}
