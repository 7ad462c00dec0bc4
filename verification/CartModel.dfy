/**
 One shopping cart as a state machine: what each cart operation does to the four views of the
 session, and which rows it appends to the cart's transaction file.
 */
module CartModel {
  import opened Catalogue
  import opened MapSum
  import opened Barcode

  datatype Phase = Ready | Loading | Voided | Closed

  /** The numbers the source gives to the states; a rejected operation returns one of them. */
  function StateCode(p: Phase): int {
    match p
    case Ready => 20000
    case Closed => 20020
    case Loading => 20030
    case Voided => 20097
  }

  datatype Totals = Totals(items: int, amount: int, discount: int)

  const NO_TOTALS := Totals(0, 0, 0)

  /** Everything the transaction file determines without looking at the catalogue. */
  datatype Core = Core(
    rows: map<nat, int>,       // quantity per item
    barcodes: map<nat, int>,   // quantity per barcode
    itemsNumber: int,
    frozen: map<nat, Item>,    // the cart's private copy of the items
    slots: map<nat, nat>,      // loyalty card per slot
    cardsNumber: nat,          // an unsigned 32-bit counter
    phase: Phase)

  /** totals[0] is the grand total, totals[d] the total of department d. */
  datatype CartState = CartState(core: Core, totals: map<nat, Totals>)

  datatype LogRow =
    | DepartmentRow(department: Department)   // K,D
    | ItemRow(item: Item)                     // K,I
    | AddRow(barcode: nat, quantity: nat)     // I,A
    | VoidRow(barcode: nat)                   // I,V
    | CardAddRow(card: nat)                   // L,A
    | CardVoidRow(card: nat)                  // L,V
    | CartVoidRow                             // C,V

  datatype Op =
    | Freeze(item: Item, department: Department)
    | Add(code: nat, dept: nat, barcode: nat, quantity: nat, price: int, discount: int)
    | Remove(code: nat, dept: nat, barcode: nat, price: int, discount: int)
    | AddCard(card: nat, limit: nat)
    | RemoveCard(card: nat)
    | VoidAll

  function Empty(phase: Phase): CartState {
    CartState(Core(map[], map[], 0, map[], map[], 0, phase), map[0 := NO_TOTALS])
  }

  predicate Accepting(c: Core) {
    c.phase == Loading || c.phase == Ready
  }

  // ----- totals

  function TotalOf(totals: map<nat, Totals>, d: nat): Totals {
    Lookup(totals, d, NO_TOTALS)
  }

  function Charge(totals: map<nat, Totals>, d: nat, t: Totals): map<nat, Totals> {
    var was := TotalOf(totals, d);
    totals[d := Totals(was.items + t.items, was.amount + t.amount, was.discount + t.discount)]
  }

  /** The grand total first, then the department's row; department 0 is hit twice. */
  function ChargeBoth(totals: map<nat, Totals>, d: nat, t: Totals): map<nat, Totals> {
    Charge(Charge(totals, 0, t), d, t)
  }

  function Gross(s: CartState): int {
    TotalOf(s.totals, 0).amount + TotalOf(s.totals, 0).discount
  }

  // ----- operations on the core

  function FreezeCore(c: Core, item: Item): Core {
    if item.code in c.frozen then c else c.(frozen := c.frozen[item.code := item])
  }

  function Bump(m: map<nat, int>, k: nat, n: int): map<nat, int> {
    m[k := Get(m, k) + n]
  }

  function AddCore(c: Core, code: nat, barcode: nat, quantity: nat): Core {
    if !Accepting(c) then c
    else c.(rows := Bump(c.rows, code, quantity),
            barcodes := Bump(c.barcodes, barcode, quantity),
            itemsNumber := c.itemsNumber + quantity)
  }

  function RemoveCore(c: Core, code: nat, barcode: nat): Core {
    if !Accepting(c) || code !in c.rows then c
    else c.(rows := Put(c.rows, code, c.rows[code] - 1),
            barcodes := Put(c.barcodes, barcode, Get(c.barcodes, barcode) - 1),
            itemsNumber := c.itemsNumber - 1)
  }

  /** The guard of a stored card: room under the limit, and no slot holding the card already. */
  predicate CardFits(c: Core, card: nat, limit: nat) {
    Accepting(c) && c.cardsNumber < limit && forall k :: k in c.slots ==> c.slots[k] != card
  }

  /** The slot written is the card counter's; a slot freed earlier can make it an occupied one. */
  function AddCardCore(c: Core, card: nat, limit: nat): Core {
    if !CardFits(c, card, limit) then c
    else c.(slots := c.slots[c.cardsNumber := card], cardsNumber := c.cardsNumber + 1)
  }

  /** Every slot holding the card is freed; the counter goes down once per freed slot. */
  function WithoutCard(slots: map<nat, nat>, card: nat): map<nat, nat> {
    map k | k in slots && slots[k] != card :: slots[k]
  }

  function FreedSlots(slots: map<nat, nat>, card: nat): int {
    |slots| - |WithoutCard(slots, card)|
  }

  /** The unsigned 32-bit counter counted down k times; below zero it would wrap around. */
  function Less(n: nat, k: int): nat
    decreases k
  {
    if k <= 0 then n
    else
      var m := Less(n, k - 1);
      if m > 0 then m - 1 else 0xFFFF_FFFF
  }

  function RemoveCardCore(c: Core, card: nat): Core {
    if !Accepting(c) then c
    else c.(slots := WithoutCard(c.slots, card), cardsNumber := Less(c.cardsNumber, FreedSlots(c.slots, card)))
  }

  function VoidCore(c: Core): Core {
    if c.phase == Voided || c.phase == Closed then c else c.(phase := Voided)
  }

  // ----- operations on the whole cart

  function AddItem(s: CartState, code: nat, dept: nat, barcode: nat, quantity: nat, price: int,
                   discount: int): CartState {
    if !Accepting(s.core) then s
    else CartState(AddCore(s.core, code, barcode, quantity),
                   ChargeBoth(s.totals, dept, Totals(quantity, (price - discount) * quantity, discount * quantity)))
  }

  function RemoveItem(s: CartState, code: nat, dept: nat, barcode: nat, price: int, discount: int): CartState {
    if !Accepting(s.core) || code !in s.core.rows then s
    else CartState(RemoveCore(s.core, code, barcode),
                   ChargeBoth(s.totals, dept, Totals(-1, -(price - discount), -discount)))
  }

  function Apply(s: CartState, op: Op): CartState {
    match op
    case Freeze(item, _) => s.(core := FreezeCore(s.core, item))
    case Add(code, dept, barcode, quantity, price, discount) =>
        AddItem(s, code, dept, barcode, quantity, price, discount)
    case Remove(code, dept, barcode, price, discount) => RemoveItem(s, code, dept, barcode, price, discount)
    case AddCard(card, limit) => s.(core := AddCardCore(s.core, card, limit))
    case RemoveCard(card) => s.(core := RemoveCardCore(s.core, card))
    case VoidAll => s.(core := VoidCore(s.core))
  }

  function Repeat(row: LogRow, n: int): seq<LogRow> {
    if n <= 0 then [] else Repeat(row, n - 1) + [row]
  }

  /** The rows an operation appends. Only a READY cart writes, except that voiding always does. */
  function Rows(c: Core, op: Op): seq<LogRow> {
    match op
    case Freeze(item, department) =>
      if c.phase == Ready && item.code !in c.frozen then [DepartmentRow(department), ItemRow(item)] else []
    case Add(_, _, barcode, quantity, _, _) =>
      if c.phase == Ready then [AddRow(barcode, quantity)] else []
    case Remove(code, _, barcode, _, _) =>
      if c.phase == Ready && code in c.rows then [VoidRow(barcode)] else []
    case AddCard(card, limit) =>
      if c.phase == Ready && CardFits(c, card, limit) then [CardAddRow(card)] else []
    case RemoveCard(card) =>
      if c.phase == Ready then Repeat(CardVoidRow(card), FreedSlots(c.slots, card)) else []
    case VoidAll =>
      if c.phase == Voided || c.phase == Closed then [] else [CartVoidRow]
  }

  function Run(s: CartState, ops: seq<Op>): CartState
    decreases |ops|
  {
    if ops == [] then s else Run(Apply(s, ops[0]), ops[1..])
  }

  function Log(s: CartState, ops: seq<Op>): seq<LogRow>
    decreases |ops|
  {
    if ops == [] then [] else Rows(s.core, ops[0]) + Log(Apply(s, ops[0]), ops[1..])
  }

  lemma {:induction false} RunConcat(s: CartState, a: seq<Op>, b: seq<Op>)
    ensures Run(s, a + b) == Run(Run(s, a), b)
    ensures Log(s, a + b) == Log(s, a) + Log(Run(s, a), b)
    decreases |a|
  {
    if a == [] {
      assert a + b == b;
    } else {
      assert (a + b)[1..] == a[1..] + b;
      RunConcat(Apply(s, a[0]), a[1..], b);
    }
  }

  // ----- prices and owners

  /** The item a barcode stands for. */
  function Owner(archive: map<nat, BarcodeRow>, barcode: nat): nat {
    Decode(archive, barcode).code
  }

  /** What a line of this barcode is charged: the embedded price, the private copy's, or the catalogue's. */
  function PriceOf(frozen: map<nat, Item>, item: Item, barcode: nat, priceChanges: bool): int {
    if KindOf(barcode) != Ean13PriceReq then
      if !priceChanges && item.code in frozen then frozen[item.code].price else item.price
    else EmbeddedPrice(barcode)
  }
}
