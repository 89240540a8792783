/**
 * Item and its Book variant: the stock counter that orders decrement and
 * cancellations restore, and the store that holds every item by id.
 */
module Items {
  import opened Wrappers
  import opened Errors
  import opened Ids

  /** The concrete kinds of Item. Book is the only one, adding author and isbn. */
  datatype ItemKind = Book(author: Option<string>, isbn: Option<string>)

  /** An item of the catalogue. Name, price and stock are common to every kind. */
  datatype Item = Item(name: string, price: int, stockQuantity: int, kind: ItemKind)

  /** The three values an update request carries into changeItem. */
  datatype UpdateItemDto = UpdateItemDto(name: string, price: int, stockQuantity: int)

  /** Every item by id. Several order lines may refer to the same item. */
  type ItemStore = map<ItemId, Item>

  /** The Book constructor: forwards name, price and stock to Item, keeps author and isbn. */
  function NewBook(name: string, price: int, stockQuantity: int,
                   author: Option<string>, isbn: Option<string>): (b: Item)
    ensures b.name == name && b.price == price && b.stockQuantity == stockQuantity
    ensures b.kind.author == author && b.kind.isbn == isbn
  {
    Item(name, price, stockQuantity, Book(author, isbn))
  }

  /** Replaces name, price and stock with the request's values, without validation. */
  function ChangeItem(item: Item, dto: UpdateItemDto): (r: Item)
    ensures r.name == dto.name && r.price == dto.price && r.stockQuantity == dto.stockQuantity
    ensures r.kind == item.kind
  {
    item.(name := dto.name, price := dto.price, stockQuantity := dto.stockQuantity)
  }

  /** Raises the stock by quantity. There is no failure case and no sign check. */
  function AddStock(item: Item, quantity: int): (r: Item)
    ensures r.stockQuantity == item.stockQuantity + quantity
    ensures r.name == item.name && r.price == item.price && r.kind == item.kind
  {
    item.(stockQuantity := item.stockQuantity + quantity)
  }

  /**
   * Lowers the stock by quantity, or raises NotEnoughStock when the rest
   * would be negative. The check precedes the assignment, so a failure
   * leaves the item as it was.
   */
  function RemoveStock(item: Item, quantity: int): (r: Result<Item, Error>)
    ensures r.Success? <==> quantity <= item.stockQuantity
    ensures r.Failure? ==> r.error == NotEnoughStock
    ensures r.Success? ==> r.value.stockQuantity == item.stockQuantity - quantity
    ensures r.Success? ==> r.value.name == item.name && r.value.price == item.price
                           && r.value.kind == item.kind
    ensures r.Success? ==> r.value.stockQuantity >= 0
  {
    var restStock := item.stockQuantity - quantity;
    if restStock < 0 then Failure(NotEnoughStock)
    else Success(item.(stockQuantity := restStock))
  }

  /** A successful removal followed by adding the same quantity gives back the item. */
  lemma RemoveThenAddRestores(item: Item, quantity: int)
    requires RemoveStock(item, quantity).Success?
    ensures AddStock(RemoveStock(item, quantity).value, quantity) == item
  {
  }

  /** Adding then removing the same quantity succeeds exactly when the stock was not negative. */
  lemma AddThenRemove(item: Item, quantity: int)
    ensures RemoveStock(AddStock(item, quantity), quantity)
            == if item.stockQuantity >= 0 then Success(item) else Failure(NotEnoughStock)
  {
  }

  /** Two additions amount to one addition of their sum. */
  lemma AddStockTwice(item: Item, a: int, b: int)
    ensures AddStock(AddStock(item, a), b) == AddStock(item, a + b)
  {
  }

  /** The stock invariant the removal check maintains: no item has negative stock. */
  ghost predicate StockNonNegative(s: ItemStore)
  {
    forall id :: id in s ==> s[id].stockQuantity >= 0
  }

  /** s' is s with the stock of item id shifted by delta and nothing else changed. */
  ghost predicate Shifted(s: ItemStore, s': ItemStore, id: ItemId, delta: int)
  {
    && s'.Keys == s.Keys
    && id in s
    && s'[id] == s[id].(stockQuantity := s[id].stockQuantity + delta)
    && forall j :: j in s && j != id ==> s'[j] == s[j]
  }

  /**
   * changeItem does not validate: the store keeps its stock invariant
   * exactly when the requested stock is non-negative.
   */
  lemma ChangeItemKeepsInvariantIff(s: ItemStore, id: ItemId, dto: UpdateItemDto)
    requires id in s && StockNonNegative(s)
    ensures StockNonNegative(s[id := ChangeItem(s[id], dto)]) <==> dto.stockQuantity >= 0
  {
    var s' := s[id := ChangeItem(s[id], dto)];
    assert s'[id].stockQuantity == dto.stockQuantity;
  }

  /**
   * The constructor does not validate either: adding a new book keeps the
   * stock invariant exactly when its initial stock is non-negative.
   */
  lemma NewBookKeepsInvariantIff(s: ItemStore, id: ItemId, name: string, price: int, stockQuantity: int,
                                 author: Option<string>, isbn: Option<string>)
    requires StockNonNegative(s)
    ensures StockNonNegative(s[id := NewBook(name, price, stockQuantity, author, isbn)])
            <==> stockQuantity >= 0
  {
    var s' := s[id := NewBook(name, price, stockQuantity, author, isbn)];
    assert s'[id].stockQuantity == stockQuantity;
  }

  /** A successful removal keeps the stock invariant of the store. */
  lemma RemoveStockKeepsInvariant(s: ItemStore, id: ItemId, quantity: int)
    requires id in s && StockNonNegative(s)
    requires RemoveStock(s[id], quantity).Success?
    ensures StockNonNegative(s[id := RemoveStock(s[id], quantity).value])
  {
  }
}
