/** ShopItem.swift: rewards bought with points. */
module ShopItemModel {
  import opened Wrappers

  datatype ShopItemCategory = Merchandise | Discounts | Privileges | Experiences

  function CategoryRawValue(c: ShopItemCategory): string
  {
    match c
    case Merchandise => "Merchandise"
    case Discounts => "Discounts"
    case Privileges => "Privileges"
    case Experiences => "Experiences"
  }

  function CategoryFromRawValue(s: string): (c: Option<ShopItemCategory>)
    ensures c.Some? ==> CategoryRawValue(c.value) == s
    ensures c.None? ==> forall d: ShopItemCategory :: CategoryRawValue(d) != s
  {
    if s == "Merchandise" then Some(Merchandise)
    else if s == "Discounts" then Some(Discounts)
    else if s == "Privileges" then Some(Privileges)
    else if s == "Experiences" then Some(Experiences)
    else None
  }

  lemma CategoryRawValueRoundTrip(c: ShopItemCategory)
    ensures CategoryFromRawValue(CategoryRawValue(c)) == Some(c)
  {
  }

  /** A shop item with the source's defaults (the default `id` is a fresh
      UUID, so the caller supplies it). `stockAvailable == None` means the
      stock is not tracked. Dates are seconds since the epoch. */
  datatype ShopItem = ShopItem(
    id: string,
    title: string,
    cost: int,
    description: string,
    imageURL: Option<string> := None,
    category: ShopItemCategory,
    stockAvailable: Option<int> := None,
    isAvailable: bool := true,
    validUntil: Option<int> := None,
    termsAndConditions: Option<string> := None)

  /** `canPurchase(userPoints:)`: available, affordable, and in stock, an
      untracked stock counting as in stock. */
  function CanPurchase(item: ShopItem, userPoints: int): (ok: bool)
    ensures ok <==> && item.isAvailable && item.cost <= userPoints
                    && (item.stockAvailable.None? || item.stockAvailable.value > 0)
  {
    item.isAvailable && item.cost <= userPoints && item.stockAvailable.GetOr(1) > 0
  }

  /** More points never make an item unaffordable, and exactly the cost is
      enough. */
  lemma PurchaseMonotoneInPoints(item: ShopItem, points: int, more: int)
    ensures CanPurchase(item, points) && points <= more ==> CanPurchase(item, more)
    ensures CanPurchase(item, points) ==> CanPurchase(item, item.cost)
  {
  }

  /** A newly created item, available and with untracked stock, can be bought
      by anyone with at least its cost. */
  lemma NewItemPurchasable(id: string, title: string, cost: int, description: string,
                           c: ShopItemCategory, points: int)
    ensures var item := ShopItem(id, title, cost, description, category := c);
      CanPurchase(item, points) <==> cost <= points
  {
  }
}
