/** The eCommerce order model the validators look at. */
module ECommerceModels {

  /** A product line of an order. The source's price is a `double`; the model takes whole amounts,
      a simplification of its own (the range rule bounds the price but does not make it whole). */
  datatype Product = Product(productCode: int, price: int, quantity: int)

  /** `int.MaxValue`, the upper bound of the price and quantity range rules. */
  const IntMaxValue := 0x7FFF_FFFF

  /** The range rules on `Product`: code 1..100, price and quantity 1..`int.MaxValue`. */
  predicate InRange(p: Product) {
    1 <= p.productCode <= 100 && 1 <= p.price <= IntMaxValue && 1 <= p.quantity <= IntMaxValue
  }
}
