/** OnlineShoppingCenter: carts with product snapshots, checkout with its dialogue, the account menu, and
    what the store keeps, over sequential sessions on one store.  Prices are whole numbers. */
module Shop {
  import opened Wrappers
  import opened CartText
  import Ascending

  datatype Product = Product(upc: nat, name: string, category: string, price: int, quantity: nat)

  datatype Entry = Entry(product: Product, qty: nat)

  type Cart = map<nat, Entry>

  /** A payment method in memory, and as the store holds it. */
  datatype Card = Card(number: nat, exp: string, cv2: nat)

  datatype CardText = CardText(number: string, exp: string, cv2: string)

  /** A user's record.  Of the shipping address only the postal code matters: it is there with the rest. */
  datatype User = User(cart: string, orders: seq<nat>, zip: Option<string>, card: Option<CardText>)

  datatype Order = Order(items: string, total: int, zip: string, card: CardText)

  datatype Session = Session(
    name: string,
    cart: Cart,
    orders: seq<nat>,
    zip: Option<nat>,
    card: Option<Card>,
    saved: bool)                    // the user was stored since login

  datatype State = State(
    products: map<nat, Product>,
    users: map<string, User>,
    orders: map<nat, Order>,
    placed: seq<(nat, Cart)>,       // the transactions finalized so far, with their ids
    session: Option<Session>,       // globals::logged_in of the running program
    exceptions: nat)                // programs ended by an uncaught exception

  datatype Step =
    | Login(name: string)
    | AddToCart(upc: nat, entered: Option<nat>)
    | RemoveItem(upc: nat)
    | ChangeQuantity(upc: nat, number: nat)
    | ClearCart
    | Checkout(id: nat, answers: seq<Answer>, confirm: bool)
    | FileAddress(zip: nat, kept: bool)                 // account, addr
    | FileCard(number: nat, exp: string, kept: bool)    // account, pay
    | ViewOrder(index: nat)                             // account, orders
    | Exit

  /** What the user says in the checkout dialogue.  An address or card is kept if the entry was completed
      and confirmed; its number has been read in any case. */
  datatype Answer =
    | UseAddress(yes: bool)
    | EnterAddress(zip: nat, kept: bool)
    | UseCard(yes: bool)
    | EnterCard(number: nat, exp: string, kept: bool)

  // ----- carts -----

  function Quantity(cart: Cart): Quantities { map k | k in cart :: cart[k].qty }

  predicate InCart(cart: Cart, upc: nat) { upc in cart && cart[upc].qty > 0 }    // checkCart

  predicate Invalid(cart: Cart) { exists k :: k in cart && cart[k].qty > cart[k].product.quantity }

  function Price(e: Entry): int { e.product.price * e.qty }

  /** The sum over a cart in the order of its keys. */
  ghost function Amount(cart: Cart): int
    decreases cart.Keys
  {
    if cart == map[] then 0
    else var k := Ascending.Least(cart.Keys); Price(cart[k]) + Amount(cart - {k})
  }

  /** The order does not matter: any item can be set apart. */
  lemma {:induction false} AmountSplit(cart: Cart, k: nat)
    requires k in cart
    ensures Amount(cart) == cart[k].product.price * cart[k].qty + Amount(cart - {k})
    ensures Amount(map[]) == 0
    decreases cart.Keys
  {
    var first := Ascending.Least(cart.Keys);
    if k != first {
      AmountSplit(cart - {first}, k);
      var rest := cart - {k};
      assert first in rest;
      LeastOfRest(cart.Keys, k);
      assert rest.Keys == cart.Keys - {k};
      assert rest - {first} == cart - {first} - {k};
    }
  }

  lemma LeastOfRest(s: set<nat>, k: nat)
    requires k in s && k != Ascending.Least(s)
    ensures Ascending.Least(s) in s - {k} && Ascending.Least(s - {k}) == Ascending.Least(s)
  {
  }

  /** A product after its entry has been bought, computed from the snapshot in the cart. */
  function Sold(e: Entry): Product {
    e.product.(quantity := if e.qty <= e.product.quantity then e.product.quantity - e.qty else 0)
  }

  /** How much of a product has been ordered. */
  function Ordered(placed: seq<(nat, Cart)>, upc: nat): nat {
    if placed == [] then 0
    else
      var n := |placed| - 1;
      Ordered(placed[..n], upc) + if upc in placed[n].1 then placed[n].1[upc].qty else 0
  }

  // ----- the checkout dialogue -----

  predicate Blank(s: string) { forall i :: 0 <= i < |s| ==> IsSpace(s[i]) }

  /** The address and card on file and those of the order, during the dialogue. */
  datatype Desk = Desk(zip: Option<nat>, card: Option<Card>, toZip: Option<nat>, toCard: Option<Card>,
                       filed: bool, threw: bool)
  {
    predicate Complete() { toZip.Some? && toCard.Some? && !threw }
  }

  /** The dialogue has come to the question that this answers. */
  predicate Asked(d: Desk, a: Answer) {
    && d.toCard.None? && !d.threw
    && match a
       case UseAddress(_) => d.zip.Some?
       case EnterAddress(_, _) => d.toZip.None?
       case UseCard(_) => d.toZip.Some? && d.card.Some?
       case EnterCard(_, _, _) => d.toZip.Some?
  }

  /** An entry that is kept is put on file at once: the answer tested by "keep on file?" is still the
      one that confirmed the entry.  The card's security code is read from its number. */
  function Hear(d: Desk, a: Answer): Desk {
    if !Asked(d, a) then d
    else match a
      case UseAddress(yes) => if yes then d.(toZip := d.zip) else d
      case EnterAddress(zip, kept) =>
        if zip >= TWO_64 then d.(threw := true)
        else if kept then d.(zip := Some(zip % TWO_32), toZip := Some(zip % TWO_32), filed := true)
        else d
      case UseCard(yes) => if yes then d.(toCard := d.card) else d
      case EnterCard(number, exp, kept) =>
        if number >= TWO_64 then d.(threw := true)
        else if kept && !Blank(exp) then
          d.(card := Some(Card(number, exp, number % TWO_32)),
             toCard := Some(Card(number, exp, number % TWO_32)), filed := true)
        else d
  }

  function Talk(d: Desk, answers: seq<Answer>): Desk {
    if answers == [] then d
    else
      var n := |answers| - 1;
      Hear(Talk(d, answers[..n]), answers[n])
  }

  /** Answer i is one to a question of the dialogue. */
  predicate HeardAt(d: Desk, answers: seq<Answer>, i: nat) {
    i < |answers| && Asked(Talk(d, answers[..i]), answers[i])
  }

  predicate ThrowsAt(d: Desk, answers: seq<Answer>, i: nat) {
    HeardAt(d, answers, i) && TooBig(answers[i])
  }

  predicate KeepsAt(d: Desk, answers: seq<Answer>, i: nat) {
    HeardAt(d, answers, i) && Keeps(answers[i])
  }

  predicate TooBig(a: Answer) {
    (a.EnterAddress? && a.zip >= TWO_64) || (a.EnterCard? && a.number >= TWO_64)
  }

  predicate Keeps(a: Answer) {
    !TooBig(a) && ((a.EnterAddress? && a.kept) || (a.EnterCard? && a.kept && !Blank(a.exp)))
  }

  /** The dialogue throws exactly at a number that is too big, and files something exactly if an entry
      was kept. */
  lemma {:induction false} TalkOutcome(d: Desk, answers: seq<Answer>)
    ensures Talk(d, answers).threw <==> d.threw || exists i: nat :: ThrowsAt(d, answers, i)
    ensures Talk(d, answers).filed <==> d.filed || exists i: nat :: KeepsAt(d, answers, i)
  {
    if answers != [] {
      var n := |answers| - 1;
      TalkOutcome(d, answers[..n]);
      HeardBefore(d, answers, n);
      assert Talk(d, answers).threw <==> Talk(d, answers[..n]).threw || ThrowsAt(d, answers, n);
      assert Talk(d, answers).filed <==> Talk(d, answers[..n]).filed || KeepsAt(d, answers, n);
    }
  }

  lemma HeardBefore(d: Desk, answers: seq<Answer>, n: nat)
    requires |answers| == n + 1
    ensures forall i: nat :: ThrowsAt(d, answers[..n], i) ==> ThrowsAt(d, answers, i)
    ensures forall i: nat :: ThrowsAt(d, answers, i) ==> i == n || ThrowsAt(d, answers[..n], i)
    ensures forall i: nat :: KeepsAt(d, answers[..n], i) ==> KeepsAt(d, answers, i)
    ensures forall i: nat :: KeepsAt(d, answers, i) ==> i == n || KeepsAt(d, answers[..n], i)
  {
    assert forall i: nat :: i <= n ==> answers[..n][..i] == answers[..i];
  }

  function Opened(u: Session): Desk { Desk(u.zip, u.card, None, None, false, false) }

  /** The dialogue takes place for a valid cart with something in it. */
  predicate Buyable(cart: Cart) { cart != map[] && !Invalid(cart) }

  // ----- commands -----

  predicate Enabled(s: State, step: Step) {
    (step.Login? <==> s.session.None?) && (step.Checkout? ==> step.id !in s.orders)
  }

  predicate BadZip(u: User) { u.zip.Some? && Stoul(u.zip.value).None? }

  /** getUser reads the security code from the expiry, too. */
  predicate BadCard(u: User) {
    u.card.Some? && (Stoul(u.card.value.number).None? || Stoul(u.card.value.exp).None?)
  }

  /** The command makes stoul throw something that nothing catches: it reads a number that an unsigned
      long cannot hold, or at login a stored text that is no such number.  A number is read only once
      the tests before it have passed. */
  predicate Throws(s: State, step: Step)
    requires s.session.None? ==> step.Login?
  {
    match step
    case Login(name) => name in s.users && (BadZip(s.users[name]) || BadCard(s.users[name]))
    case AddToCart(upc, entered) =>
      upc >= TWO_64 || (upc in s.products && entered.Some? && entered.value >= TWO_64)
    case RemoveItem(upc) => s.session.value.cart != map[] && upc >= TWO_64
    case ChangeQuantity(upc, number) => s.session.value.cart != map[] && (upc >= TWO_64 || number >= TWO_64)
    case Checkout(_, answers, _) =>
      Buyable(s.session.value.cart) && Talk(Opened(s.session.value), answers).threw
    case FileAddress(zip, _) => zip >= TWO_64
    case FileCard(number, _, _) => number >= TWO_64
    case ViewOrder(index) => s.session.value.orders != [] && index >= TWO_64
    case _ => false
  }

  /** An uncaught exception ends the program. */
  function Throw(s: State): State { s.(session := None, exceptions := s.exceptions + 1) }

  function CardRecord(c: Card): CardText { CardText(ToString(c.number), c.exp, ToString(c.cv2)) }

  /** The record after storing the user: an address or card that is not set leaves the stored one. */
  ghost function Written(users: map<string, User>, u: Session): User {
    var before := if u.name in users then users[u.name] else User("", [], None, None);
    User(Encode(Quantity(u.cart)), u.orders,
         if u.zip.Some? then Some(ToString(u.zip.value)) else before.zip,
         if u.card.Some? then Some(CardRecord(u.card.value)) else before.card)
  }

  /** storeUser(logged_in) */
  ghost function Save(s: State): State
    requires s.session.Some?
  {
    var u := s.session.value;
    s.(users := s.users[u.name := Written(s.users, u)], session := Some(u.(saved := true)))
  }

  ghost function WithCart(s: State, cart: Cart): State
    requires s.session.Some?
  {
    Save(s.(session := Some(s.session.value.(cart := cart))))
  }

  /** changeShippingAddress and changeCreditCard */
  ghost function OnFile(s: State, zip: Option<nat>, card: Option<Card>): State
    requires s.session.Some?
  {
    Save(s.(session := Some(s.session.value.(zip := zip, card := card))))
  }

  ghost function AfterTalk(s: State, d: Desk): State
    requires s.session.Some?
  {
    if d.filed then OnFile(s, d.zip, d.card) else s
  }

  /** addProduct(product, qty): quantity 0 leaves an entry with quantity 0. */
  ghost function AddProduct(s: State, p: Product, qty: nat): State
    requires s.session.Some?
  {
    WithCart(s, s.session.value.cart[p.upc := Entry(p, qty)])
  }

  predicate OrderReads(products: map<nat, Product>, order: Order) {
    && TextOk(products, order.items) && Stoul(order.zip).Some?
    && Stoul(order.card.number).Some? && Stoul(order.card.cv2).Some?
  }

  /** getTransaction succeeds on each of a user's orders. */
  predicate OrdersRead(products: map<nat, Product>, orders: map<nat, Order>, ids: seq<nat>) {
    forall i :: 0 <= i < |ids| ==> ids[i] in orders && OrderReads(products, orders[ids[i]])
  }

  function ReadZip(u: User): Option<nat>
    requires !BadZip(u)
  {
    if u.zip.None? then None else Some(Stoul(u.zip.value).value % TWO_32)
  }

  function ReadCard(u: User): Option<Card>
    requires !BadCard(u)
  {
    if u.card.None? then None
    else
      var c := u.card.value;
      Some(Card(Stoul(c.number).value, c.exp, Stoul(c.exp).value % TWO_32))
  }

  /** getUser: the user is stored, with a cart still empty, when the address has been read, and again
      when the card has been read; the cart that was read is put together only then. */
  function LogIn(s: State, name: string): State {
    if name !in s.users then s
    else
      var user := s.users[name];
      if !OrdersRead(s.products, s.orders, user.orders) || BadZip(user) then Throw(s)
      else
        var zip := ReadZip(user);
        var emptied := user.(cart := "", zip := if zip.None? then None else Some(ToString(zip.value)));
        if BadCard(user) then Throw(s.(users := s.users[name := emptied]))
        else
          var card := ReadCard(user);
          var reread := emptied.(card := if card.None? then None else Some(CardRecord(card.value)));
          FillCart(s.(users := s.users[name := reread]), name, user, zip, card)
  }

  /** The last part of getUser.  An unknown product is reported as a failed login. */
  function FillCart(s: State, name: string, user: User, zip: Option<nat>, card: Option<Card>): State {
    var items := Decode(user.cart);
    if items.None? then Throw(s)
    else if !(items.value.Keys <= s.products.Keys) then s
    else
      var cart := map k | k in items.value :: Entry(s.products[k], items.value[k]);
      s.(session := Some(Session(name, cart, user.orders, zip, card, false)))
  }

  /** chargeCreditCard */
  ghost function Charge(s: State, id: nat, cart: Cart, zip: nat, card: Card): State
    requires s.session.Some?
  {
    WithCart(Recorded(s.(products := s.products + map k | k in cart :: Sold(cart[k])), id, cart, zip, card), map[])
  }

  /** storeTransaction, and the history of the logged-in user */
  ghost function Recorded(s: State, id: nat, cart: Cart, zip: nat, card: Card): State
    requires s.session.Some?
  {
    s.(orders := s.orders[id := Order(Encode(Quantity(cart)), Amount(cart), ToString(zip), CardRecord(card))],
       placed := s.placed + [(id, cart)],
       session := Some(s.session.value.(orders := s.session.value.orders + [id])))
  }

  /** A dialogue that is broken off buys nothing. */
  ghost function CheckedOut(s: State, id: nat, answers: seq<Answer>, confirm: bool): State
    requires s.session.Some?
  {
    var u := s.session.value;
    if !Buyable(u.cart) then s
    else
      var d := Talk(Opened(u), answers);
      var t := AfterTalk(s, d);
      if d.threw then Throw(t)
      else if confirm && d.Complete() then Charge(t, id, u.cart, d.toZip.value, d.toCard.value)
      else t
  }

  ghost function Next(s: State, step: Step): State
    requires Enabled(s, step)
  {
    match step
    case Login(name) => LogIn(s, name)
    case Exit => s.(session := None)
    case Checkout(id, answers, confirm) => CheckedOut(s, id, answers, confirm)
    case _ => if Throws(s, step) then Throw(s) else Edit(s, step)
  }

  ghost function Edit(s: State, step: Step): State
    requires s.session.Some?
  {
    var u := s.session.value;
    match step
    case AddToCart(upc, entered) =>
      if upc !in s.products then s
      else
        var p := s.products[upc];
        var qty := Number(entered);
        if qty == 1 && InCart(u.cart, p.upc) then s else AddProduct(s, p, qty)
    case RemoveItem(upc) => if InCart(u.cart, upc) then WithCart(s, u.cart - {upc}) else s
    case ChangeQuantity(upc, number) =>
      if !InCart(u.cart, upc) then s
      else if upc !in s.products then Throw(s)
      else AddProduct(s, s.products[upc], number % TWO_32)
    case ClearCart => if u.cart == map[] then s else WithCart(s, map[])
    case FileAddress(zip, kept) => if kept then OnFile(s, Some(zip % TWO_32), u.card) else s
    case FileCard(number, exp, kept) =>
      if kept && !Blank(exp) then OnFile(s, u.zip, Some(Card(number, exp, number % TWO_32))) else s
    case _ => s
  }

  // ----- invariant -----

  /** A cart in memory shows the store as it is. */
  predicate CartOk(products: map<nat, Product>, cart: Cart) {
    forall k :: k in cart ==> k in products && cart[k].product == products[k] && cart[k].qty < TWO_32
  }

  predicate TextOk(products: map<nat, Product>, text: string) {
    var items := Decode(text);
    items.Some? && Storable(items.value) && items.value.Keys <= products.Keys
  }

  predicate ZipOk(zip: Option<nat>) { zip.Some? ==> zip.value < TWO_32 }

  predicate CardOk(card: Option<Card>) {
    card.Some? ==> card.value.number < TWO_64 && card.value.cv2 < TWO_32
  }

  /** Stock plus orders is what there was, and nothing else about a product changes. */
  predicate StockOk(initial: map<nat, Product>, s: State) {
    && s.products.Keys == initial.Keys
    && (forall k :: k in initial ==>
          s.products[k] == initial[k].(quantity := s.products[k].quantity) &&
          s.products[k].quantity + Ordered(s.placed, k) == initial[k].quantity)
  }

  predicate UserOk(s: State, u: User) {
    TextOk(s.products, u.cart) && OrdersRead(s.products, s.orders, u.orders)
  }

  /** A session that could be stored. */
  predicate Sound(s: State, u: Session) {
    && CartOk(s.products, u.cart) && ZipOk(u.zip) && CardOk(u.card)
    && OrdersRead(s.products, s.orders, u.orders)
  }

  ghost predicate SessionOk(s: State) {
    s.session.Some? ==>
      var u := s.session.value;
      && u.name in s.users && Sound(s, u)
      && s.users[u.name].cart == if u.saved then Encode(Quantity(u.cart)) else ""
  }

  ghost predicate OrderOk(s: State, x: (nat, Cart)) {
    && x.0 in s.orders
    && s.orders[x.0].items == Encode(Quantity(x.1)) && s.orders[x.0].total == Amount(x.1)
    && Storable(Quantity(x.1))
  }

  predicate Catalogue(initial: map<nat, Product>) {
    forall k :: k in initial ==> initial[k].upc == k < TWO_64
  }

  /** The store is in order, whoever is logged in. */
  ghost predicate StoreOk(initial: map<nat, Product>, s: State) {
    && StockOk(initial, s)
    && (forall n :: n in s.users ==> UserOk(s, s.users[n]))
    && (forall x :: x in s.placed ==> OrderOk(s, x))
  }

  ghost predicate Inv(initial: map<nat, Product>, s: State) {
    StoreOk(initial, s) && SessionOk(s)
  }

  lemma QuantityStorable(products: map<nat, Product>, cart: Cart)
    requires Catalogue(products) && CartOk(products, cart)
    ensures Storable(Quantity(cart)) && TextOk(products, Encode(Quantity(cart)))
  {
    RoundTrip(Quantity(cart));
  }

  /** A change of the users alone. */
  lemma UsersChanged(initial: map<nat, Product>, s: State, t: State, name: string)
    requires StoreOk(initial, s) && t == s.(users := t.users, session := t.session, exceptions := t.exceptions)
    requires name in t.users && t.users == s.users[name := t.users[name]] && UserOk(s, t.users[name])
    ensures StoreOk(initial, t)
  {
    forall n | n in t.users ensures UserOk(t, t.users[n]) {
      assert n != name ==> UserOk(s, s.users[n]);
    }
    OrdersKept(s, t);
  }

  lemma OrdersKept(s: State, t: State)
    requires (forall x :: x in s.placed ==> OrderOk(s, x)) && t.placed == s.placed && t.orders == s.orders
    ensures forall x :: x in t.placed ==> OrderOk(t, x)
  {
    forall x | x in t.placed ensures OrderOk(t, x) { assert OrderOk(s, x); }
  }

  /** Ending a session changes nothing in the store. */
  lemma EndKeepsInv(initial: map<nat, Product>, s: State, t: State)
    requires StoreOk(initial, s) && t == s.(session := None, exceptions := t.exceptions)
    ensures Inv(initial, t)
  {
    forall n | n in t.users ensures UserOk(t, t.users[n]) { assert UserOk(s, s.users[n]); }
    OrdersKept(s, t);
  }

  /** Storing a sound session keeps everything in order. */
  lemma SaveKeepsInv(initial: map<nat, Product>, s: State, u: Session)
    requires Catalogue(initial) && StoreOk(initial, s) && Sound(s, u)
    ensures Inv(initial, Save(s.(session := Some(u))))
  {
    assert Catalogue(s.products) by { CatalogueKept(initial, s); }
    QuantityStorable(s.products, u.cart);
    UsersChanged(initial, s, Save(s.(session := Some(u))), u.name);
  }

  lemma CatalogueKept(initial: map<nat, Product>, s: State)
    requires Catalogue(initial) && StockOk(initial, s)
    ensures Catalogue(s.products)
  {
  }

  lemma AddKeepsInv(initial: map<nat, Product>, s: State, upc: nat, qty: nat)
    requires Catalogue(initial) && Inv(initial, s) && s.session.Some? && upc in s.products && qty < TWO_32
    ensures Inv(initial, AddProduct(s, s.products[upc], qty))
  {
    CatalogueKept(initial, s);
    var u := s.session.value;
    SaveKeepsInv(initial, s, u.(cart := u.cart[upc := Entry(s.products[upc], qty)]));
  }

  lemma LoginKeepsInv(initial: map<nat, Product>, s: State, name: string)
    requires Catalogue(initial) && Inv(initial, s) && s.session.None?
    ensures Inv(initial, LogIn(s, name))
    ensures LogIn(s, name).exceptions == s.exceptions + if Throws(s, Login(name)) then 1 else 0
  {
    if name in s.users {
      var user := s.users[name];
      assert UserOk(s, user);
      if BadZip(user) {
        EndKeepsInv(initial, s, Throw(s));
      } else {
        EmptyTextOk(s.products);
        EmptiedKeepsInv(initial, s, name);
      }
    }
  }

  lemma EmptiedKeepsInv(initial: map<nat, Product>, s: State, name: string)
    requires Catalogue(initial) && Inv(initial, s) && s.session.None? && name in s.users
    requires UserOk(s, s.users[name]) && !BadZip(s.users[name]) && TextOk(s.products, "")
    ensures Inv(initial, LogIn(s, name))
    ensures LogIn(s, name).exceptions == s.exceptions + if BadCard(s.users[name]) then 1 else 0
  {
    UsersChanged(initial, s, LogIn(s, name), name);
  }

  lemma EmptyTextOk(products: map<nat, Product>)
    ensures Decode("") == Some(map[]) && TextOk(products, "")
  {
  }

  /** What checkout takes from the shelf is what the order says. */
  lemma ChargeKeepsStock(initial: map<nat, Product>, s: State, id: nat, cart: Cart, zip: nat, card: Card)
    requires StockOk(initial, s) && s.session.Some? && CartOk(s.products, cart) && !Invalid(cart)
    ensures StockOk(initial, Charge(s, id, cart, zip, card))
  {
  }

  /** Orders can still be read when stock has changed and there are more of them. */
  lemma OrdersStillRead(s: State, t: State, ids: seq<nat>)
    requires OrdersRead(s.products, s.orders, ids) && t.products.Keys == s.products.Keys
    requires forall id :: id in s.orders ==> id in t.orders && t.orders[id] == s.orders[id]
    ensures OrdersRead(t.products, t.orders, ids)
  {
  }

  lemma NewOrderReads(products: map<nat, Product>, cart: Cart, zip: nat, card: Card)
    requires Catalogue(products) && CartOk(products, cart) && ZipOk(Some(zip)) && CardOk(Some(card))
    ensures OrderReads(products, Order(Encode(Quantity(cart)), Amount(cart), ToString(zip), CardRecord(card)))
  {
    QuantityStorable(products, cart);
    StoulOfToString(zip);
    StoulOfToString(card.number);
    StoulOfToString(card.cv2);
  }

  lemma RecordedKeepsStore(initial: map<nat, Product>, s: State, id: nat, cart: Cart, zip: nat, card: Card)
    requires Catalogue(initial) && Inv(initial, s) && s.session.Some? && id !in s.orders
    requires CartOk(s.products, cart) && !Invalid(cart) && ZipOk(Some(zip)) && CardOk(Some(card))
    ensures
      var t := Recorded(s.(products := s.products + map k | k in cart :: Sold(cart[k])), id, cart, zip, card);
      StoreOk(initial, t) && OrdersRead(t.products, t.orders, t.session.value.orders)
  {
    var t := Recorded(s.(products := s.products + map k | k in cart :: Sold(cart[k])), id, cart, zip, card);
    ChargeKeepsStock(initial, s, id, cart, zip, card);
    CatalogueKept(initial, s);
    assert t.products.Keys == s.products.Keys;
    NewOrderReads(s.products, cart, zip, card);
    QuantityStorable(s.products, cart);
    OrderAdded(initial, s, t, id, cart);
    OrdersStillRead(s, t, s.session.value.orders);
    assert OrderReads(t.products, t.orders[id]);
  }

  lemma OrderAdded(initial: map<nat, Product>, s: State, t: State, id: nat, cart: Cart)
    requires StoreOk(initial, s) && id !in s.orders && id in t.orders && t.orders == s.orders[id := t.orders[id]]
    requires t.placed == s.placed + [(id, cart)] && OrderOk(t, (id, cart))
    requires t.users == s.users && t.products.Keys == s.products.Keys
    ensures forall n :: n in t.users ==> UserOk(t, t.users[n])
    ensures forall x :: x in t.placed ==> OrderOk(t, x)
  {
    forall n | n in t.users ensures UserOk(t, t.users[n]) {
      assert UserOk(s, s.users[n]);
      OrdersStillRead(s, t, s.users[n].orders);
    }
    forall x | x in t.placed ensures OrderOk(t, x) {
      if x in s.placed { assert OrderOk(s, x); }
    }
  }

  lemma ChargeKeepsInv(initial: map<nat, Product>, s: State, id: nat, cart: Cart, zip: nat, card: Card)
    requires Catalogue(initial) && Inv(initial, s) && s.session.Some? && id !in s.orders
    requires CartOk(s.products, cart) && !Invalid(cart) && ZipOk(Some(zip)) && CardOk(Some(card))
    ensures Inv(initial, Charge(s, id, cart, zip, card))
  {
    RecordedKeepsStore(initial, s, id, cart, zip, card);
    var t := Recorded(s.(products := s.products + map k | k in cart :: Sold(cart[k])), id, cart, zip, card);
    SaveKeepsInv(initial, t, t.session.value.(cart := map[]));
  }

  predicate DeskOk(d: Desk) { ZipOk(d.zip) && ZipOk(d.toZip) && CardOk(d.card) && CardOk(d.toCard) }

  lemma {:induction false} TalkKeepsDesk(d: Desk, answers: seq<Answer>)
    requires DeskOk(d)
    ensures DeskOk(Talk(d, answers))
  {
    if answers != [] { TalkKeepsDesk(d, answers[..|answers| - 1]); }
  }

  lemma CheckoutKeepsInv(initial: map<nat, Product>, s: State, id: nat, answers: seq<Answer>, confirm: bool)
    requires Catalogue(initial) && Inv(initial, s) && s.session.Some? && id !in s.orders
    ensures Inv(initial, CheckedOut(s, id, answers, confirm))
    ensures CheckedOut(s, id, answers, confirm).exceptions ==
      s.exceptions + if Throws(s, Checkout(id, answers, confirm)) then 1 else 0
  {
    var u := s.session.value;
    if Buyable(u.cart) {
      var d := Talk(Opened(u), answers);
      TalkKeepsDesk(Opened(u), answers);
      var t := AfterTalk(s, d);
      if d.filed { SaveKeepsInv(initial, s, u.(zip := d.zip, card := d.card)); }
      if d.threw {
        EndKeepsInv(initial, t, Throw(t));
      } else if confirm && d.Complete() {
        ChargeKeepsInv(initial, t, id, u.cart, d.toZip.value, d.toCard.value);
      }
    }
  }

  /** A command keeps the invariant, and counts an exception exactly if it throws. */
  lemma StepKeepsInv(initial: map<nat, Product>, s: State, step: Step)
    requires Catalogue(initial) && Inv(initial, s) && Enabled(s, step)
    ensures Inv(initial, Next(s, step))
    ensures Next(s, step).exceptions == s.exceptions + if Throws(s, step) then 1 else 0
  {
    match step
    case Login(name) => LoginKeepsInv(initial, s, name);
    case Exit => EndKeepsInv(initial, s, Next(s, step));
    case Checkout(id, answers, confirm) => CheckoutKeepsInv(initial, s, id, answers, confirm);
    case _ => CommandKeepsInv(initial, s, step);
  }

  lemma CommandKeepsInv(initial: map<nat, Product>, s: State, step: Step)
    requires Catalogue(initial) && Inv(initial, s) && Enabled(s, step)
    requires !step.Login? && !step.Exit? && !step.Checkout?
    ensures Inv(initial, Next(s, step))
    ensures Next(s, step).exceptions == s.exceptions + if Throws(s, step) then 1 else 0
  {
    if Throws(s, step) {
      EndKeepsInv(initial, s, Throw(s));
    } else {
      EditKeepsInv(initial, s, step);
    }
  }

  lemma EditKeepsInv(initial: map<nat, Product>, s: State, step: Step)
    requires Catalogue(initial) && Inv(initial, s) && s.session.Some? && Enabled(s, step) && !Throws(s, step)
    requires !step.Checkout? && !step.Exit?
    ensures Inv(initial, Edit(s, step)) && Edit(s, step).exceptions == s.exceptions
  {
    var u := s.session.value;
    match step
    case AddToCart(upc, entered) =>
      if upc in s.products {
        AddKeepsInv(initial, s, upc, Number(entered));
      }
    case ChangeQuantity(upc, number) =>
      if InCart(u.cart, upc) { AddKeepsInv(initial, s, upc, number % TWO_32); }
    case RemoveItem(upc) => SaveKeepsInv(initial, s, u.(cart := u.cart - {upc}));
    case ClearCart => SaveKeepsInv(initial, s, u.(cart := map[]));
    case FileAddress(zip, _) => SaveKeepsInv(initial, s, u.(zip := Some(zip % TWO_32)));
    case FileCard(number, exp, _) =>
      SaveKeepsInv(initial, s, u.(card := Some(Card(number, exp, number % TWO_32))));
    case _ =>
  }

  // ----- whole runs -----

  ghost predicate Runs(s: State, steps: seq<Step>, t: State)
    decreases |steps|
  {
    if steps == [] then s == t
    else Enabled(s, steps[0]) && Runs(Next(s, steps[0]), steps[1..], t)
  }

  lemma {:induction false} RunKeepsInv(initial: map<nat, Product>, s: State, steps: seq<Step>, t: State)
    requires Catalogue(initial) && Inv(initial, s) && Runs(s, steps, t)
    ensures Inv(initial, t)
    decreases |steps|
  {
    if steps != [] {
      StepKeepsInv(initial, s, steps[0]);
      RunKeepsInv(initial, Next(s, steps[0]), steps[1..], t);
    }
  }

  /** Any store to start from: a catalogue, accounts whose stored carts and orders can be read, and
      nobody logged in.  Orders placed earlier are not counted.  Addresses and cards are arbitrary. */
  ghost predicate Opening(s: State) {
    && Catalogue(s.products) && s.session.None? && s.placed == []
    && (forall n :: n in s.users ==> UserOk(s, s.users[n]))
  }

  /** How many commands of a run throw. */
  ghost function Thrown(s: State, steps: seq<Step>): nat
    decreases |steps|
  {
    if steps == [] || !Enabled(s, steps[0]) then 0
    else (if Throws(s, steps[0]) then 1 else 0) + Thrown(Next(s, steps[0]), steps[1..])
  }

  lemma {:induction false} ThrownAreCounted(initial: map<nat, Product>, s: State, steps: seq<Step>, t: State)
    requires Catalogue(initial) && Inv(initial, s) && Runs(s, steps, t)
    ensures t.exceptions == s.exceptions + Thrown(s, steps)
    decreases |steps|
  {
    if steps != [] {
      StepKeepsInv(initial, s, steps[0]);
      ThrownAreCounted(initial, Next(s, steps[0]), steps[1..], t);
    }
  }

  /** Over every run of programs, an uncaught exception ends one exactly where a command reads a number of
      2^64 or more, or a login reads a stored postal code or card expiry that is no number. */
  lemma ExceptionsExactly(s: State, steps: seq<Step>, t: State)
    requires Opening(s) && Runs(s, steps, t)
    ensures t.exceptions == s.exceptions + Thrown(s, steps)
  {
    ThrownAreCounted(s.products, s, steps, t);
  }

  /** Over every run of sessions, even ones that end in an exception, stock plus orders is constant for
      every product, and a cart in memory always shows the stored stock. */
  lemma Conservation(s: State, steps: seq<Step>, t: State, upc: nat)
    requires Opening(s) && Runs(s, steps, t) && upc in s.products
    ensures upc in t.products
    ensures t.products[upc].quantity + Ordered(t.placed, upc) == s.products[upc].quantity
    ensures t.products[upc].price == s.products[upc].price
    ensures t.session.Some? && upc in t.session.value.cart ==> t.session.value.cart[upc].product == t.products[upc]
  {
    RunKeepsInv(s.products, s, steps, t);
  }

  /** Every order that was placed is on record with its amount, and its items read back. */
  lemma OrdersOnRecord(s: State, steps: seq<Step>, t: State, i: nat)
    requires Opening(s) && Runs(s, steps, t) && i < |t.placed|
    ensures
      var (id, cart) := t.placed[i];
      id in t.orders && t.orders[id].total == Amount(cart) && Decode(t.orders[id].items) == Some(Quantity(cart))
  {
    RunKeepsInv(s.products, s, steps, t);
    assert OrderOk(t, t.placed[i]);
    RoundTrip(Quantity(t.placed[i].1));
  }

  // ----- who can log in -----

  predicate LockedOut(s: State, name: string) {
    && name in s.users && (BadZip(s.users[name]) || BadCard(s.users[name]))
    && (s.session.Some? ==> s.session.value.name != name)
  }

  lemma LockStep(s: State, step: Step, name: string)
    requires Enabled(s, step) && LockedOut(s, name)
    ensures LockedOut(Next(s, step), name)
  {
    match step
    case Login(other) => LockAtLogin(s, other, name);
    case Exit =>
    case Checkout(id, answers, confirm) => LockAtCheckout(s, id, answers, confirm, name);
    case _ => if !Throws(s, step) { LockInSession(s, step, name); }
  }

  lemma LockAtCheckout(s: State, id: nat, answers: seq<Answer>, confirm: bool, name: string)
    requires s.session.Some? && LockedOut(s, name)
    ensures LockedOut(CheckedOut(s, id, answers, confirm), name)
  {
    var u := s.session.value;
    if Buyable(u.cart) {
      var d := Talk(Opened(u), answers);
      var t := AfterTalk(s, d);
      assert LockedOut(t, name);
      if !d.threw && confirm && d.Complete() { LockAtCharge(t, id, u.cart, d.toZip.value, d.toCard.value, name); }
    }
  }

  lemma LockAtCharge(s: State, id: nat, cart: Cart, zip: nat, card: Card, name: string)
    requires s.session.Some? && LockedOut(s, name)
    ensures LockedOut(Charge(s, id, cart, zip, card), name)
  {
  }

  lemma LockAtLogin(s: State, other: string, name: string)
    requires s.session.None? && LockedOut(s, name)
    ensures LockedOut(LogIn(s, other), name)
  {
    if other != name { LoginElsewhere(s, other, name); }
  }

  lemma LoginElsewhere(s: State, other: string, name: string)
    requires s.session.None? && name in s.users && other != name
    ensures name in LogIn(s, other).users && LogIn(s, other).users[name] == s.users[name]
    ensures LogIn(s, other).session.Some? ==> LogIn(s, other).session.value.name == other
  {
  }

  lemma LockInSession(s: State, step: Step, name: string)
    requires s.session.Some? && LockedOut(s, name)
    ensures LockedOut(Edit(s, step), name)
  {
  }

  /** A stored postal code or card expiry that is no number locks its user out for good: whatever others
      do, every login throws. */
  lemma {:induction false} LockedOutForGood(s: State, steps: seq<Step>, t: State, name: string)
    requires LockedOut(s, name) && Runs(s, steps, t)
    ensures LockedOut(t, name) && (t.session.None? ==> Throws(t, Login(name)))
    decreases |steps|
  {
    if steps != [] {
      LockStep(s, steps[0], name);
      LockedOutForGood(Next(s, steps[0]), steps[1..], t, name);
    }
  }

  /** So is one of the users that the program itself creates as sample data. */
  lemma SampleUserLockedOut(s: State, steps: seq<Step>, t: State, name: string)
    requires s.session.None? && name in s.users && s.users[name].zip == Some("V8T4G7") && Runs(s, steps, t)
    ensures LockedOut(t, name)
  {
    assert Stoul("V8T4G7").None?;
    LockedOutForGood(s, steps, t, name);
  }

  /** Filing a card with such an expiry and leaving is enough. */
  lemma ExpiryLocksOut(s: State, number: nat, exp: string, steps: seq<Step>, t: State)
    requires s.session.Some? && number < TWO_64 && !Blank(exp) && Stoul(exp).None?
    requires Runs(Next(Next(s, FileCard(number, exp, true)), Exit), steps, t)
    ensures LockedOut(t, s.session.value.name)
  {
    LockedOutForGood(Next(Next(s, FileCard(number, exp, true)), Exit), steps, t, s.session.value.name);
  }

  /** The number of an addtocart command, as an unsigned int. */
  function Number(entered: Option<nat>): nat {
    if entered.None? then 1 else entered.value % TWO_32
  }

  /** Whether a command changes the cart. */
  predicate Edits(t: State, step: Step)
    requires t.session.Some?
  {
    var cart := t.session.value.cart;
    !Throws(t, step) &&
    match step
    case AddToCart(upc, entered) => upc in t.products && !(Number(entered) == 1 && InCart(cart, upc))
    case ChangeQuantity(upc, _) => InCart(cart, upc)
    case RemoveItem(upc) => InCart(cart, upc)
    case ClearCart => cart != map[]
    case _ => false
  }

  /** The quantities after a command: the number given at one item, an item less, or nothing. */
  function Edited(before: Quantities, step: Step): Quantities {
    match step
    case AddToCart(upc, entered) => before[upc := if entered.None? then 1 else entered.value % TWO_32]
    case ChangeQuantity(upc, number) => before[upc := number % TWO_32]
    case RemoveItem(upc) => before - {upc}
    case _ => map[]
  }

  /** What a command did to the cart can be read from the store. */
  lemma EditsArePersisted(initial: map<nat, Product>, t: State, step: Step)
    requires Catalogue(initial) && Inv(initial, t) && Enabled(t, step) && t.session.Some? && Edits(t, step)
    ensures
      var users := Next(t, step).users;
      && t.session.value.name in users
      && Decode(users[t.session.value.name].cart) == Some(Edited(Quantity(t.session.value.cart), step))
  {
    CatalogueKept(initial, t);
    EditPersisted(t, step);
  }

  lemma EditPersisted(t: State, step: Step)
    requires Catalogue(t.products) && SessionOk(t) && t.session.Some? && Edits(t, step)
    ensures
      var users := Edit(t, step).users;
      && t.session.value.name in users
      && Decode(users[t.session.value.name].cart) == Some(Edited(Quantity(t.session.value.cart), step))
  {
    var cart := t.session.value.cart;
    match step
    case AddToCart(upc, entered) => PutPersisted(t, upc, Number(entered));
    case ChangeQuantity(upc, number) => PutPersisted(t, upc, number % TWO_32);
    case RemoveItem(upc) =>
      CartPersisted(t.products, t, cart - {upc});
      assert Quantity(cart - {upc}) == Quantity(cart) - {upc};
    case ClearCart =>
      CartPersisted(t.products, t, map[]);
      assert Quantity(map[]) == map[];
  }

  /** A confirmed checkout records the order, with the address and card of the dialogue, and leaves an
      empty cart, in memory and in the store. */
  lemma CheckoutIsPersisted(initial: map<nat, Product>, t: State, id: nat, answers: seq<Answer>)
    requires Catalogue(initial) && Inv(initial, t) && t.session.Some? && Enabled(t, Checkout(id, answers, true))
    requires Buyable(t.session.value.cart) && Talk(Opened(t.session.value), answers).Complete()
    ensures
      var d, u := Talk(Opened(t.session.value), answers), Next(t, Checkout(id, answers, true));
      && OrderPlaced(t, id, t.session.value.cart, d.toZip.value, d.toCard.value, u)
      && u.session.Some? && u.session.value.cart == map[] && u.session.value.orders == t.session.value.orders + [id]
      && t.session.value.name in u.users && Decode(u.users[t.session.value.name].cart) == Some(map[])
      && u.users[t.session.value.name].orders == t.session.value.orders + [id]
  {
    var d := Talk(Opened(t.session.value), answers);
    CatalogueKept(initial, t);
    TalkKeepsDesk(Opened(t.session.value), answers);
    ChargePersisted(AfterTalk(t, d), id, t.session.value.cart, d.toZip.value, d.toCard.value);
  }

  /** What the cart holds has left the shelf. */
  ghost predicate Shipped(before: map<nat, Product>, cart: Cart, after: map<nat, Product>) {
    && after.Keys == before.Keys
    && (forall k :: k in cart ==> k in before && after[k].quantity == before[k].quantity - cart[k].qty)
    && (forall k :: k in before && k !in cart ==> after[k] == before[k])
  }

  lemma SoldIsShipped(products: map<nat, Product>, cart: Cart)
    requires CartOk(products, cart) && !Invalid(cart)
    ensures Shipped(products, cart, products + map k | k in cart :: Sold(cart[k]))
  {
  }

  /** From t to u the order has been put on record and its goods are gone from the shelf. */
  ghost predicate OrderPlaced(t: State, id: nat, cart: Cart, zip: nat, card: Card, u: State) {
    && id in u.orders && u.placed == t.placed + [(id, cart)]
    && Decode(u.orders[id].items) == Some(Quantity(cart)) && u.orders[id].total == Amount(cart)
    && Stoul(u.orders[id].zip) == Some(zip) && Stoul(u.orders[id].card.number) == Some(card.number)
    && u.orders[id].card.exp == card.exp && Stoul(u.orders[id].card.cv2) == Some(card.cv2)
    && Shipped(t.products, cart, u.products)
  }

  lemma OrderReadsBack(products: map<nat, Product>, cart: Cart, zip: nat, card: Card)
    requires Catalogue(products) && CartOk(products, cart) && ZipOk(Some(zip)) && CardOk(Some(card))
    ensures Decode(Encode(Quantity(cart))) == Some(Quantity(cart)) && Stoul(ToString(zip)) == Some(zip)
    ensures Stoul(CardRecord(card).number) == Some(card.number) && Stoul(CardRecord(card).cv2) == Some(card.cv2)
  {
    QuantityStorable(products, cart);
    RoundTrip(Quantity(cart));
    StoulOfToString(zip);
    StoulOfToString(card.number);
    StoulOfToString(card.cv2);
  }

  lemma ChargePersisted(t: State, id: nat, cart: Cart, zip: nat, card: Card)
    requires Catalogue(t.products) && CartOk(t.products, cart) && ZipOk(Some(zip)) && CardOk(Some(card))
    requires t.session.Some? && !Invalid(cart)
    ensures
      var u := Charge(t, id, cart, zip, card);
      && OrderPlaced(t, id, cart, zip, card, u)
      && u.session.Some? && u.session.value.cart == map[] && u.session.value.orders == t.session.value.orders + [id]
      && t.session.value.name in u.users && Decode(u.users[t.session.value.name].cart) == Some(map[])
      && u.users[t.session.value.name].orders == t.session.value.orders + [id]
  {
    OrderReadsBack(t.products, cart, zip, card);
    SoldIsShipped(t.products, cart);
    RoundTrip(map[]);
    assert Quantity(map[]) == map[];
  }

  lemma CartPersisted(products: map<nat, Product>, t: State, cart: Cart)
    requires Catalogue(products) && CartOk(products, cart) && t.session.Some?
    ensures
      var users := WithCart(t, cart).users;
      t.session.value.name in users && Decode(users[t.session.value.name].cart) == Some(Quantity(cart))
  {
    QuantityStorable(products, cart);
    RoundTrip(Quantity(cart));
  }

  lemma PutPersisted(t: State, upc: nat, qty: nat)
    requires Catalogue(t.products) && SessionOk(t) && t.session.Some? && upc in t.products && qty < TWO_32
    ensures
      var users := AddProduct(t, t.products[upc], qty).users;
      && t.session.value.name in users
      && Decode(users[t.session.value.name].cart) == Some(Quantity(t.session.value.cart)[upc := qty])
  {
    var cart, e := t.session.value.cart, Entry(t.products[upc], qty);
    assert CartOk(t.products, cart[upc := e]);
    CartPersisted(t.products, t, cart[upc := e]);
    QuantityPut(cart, upc, e);
  }

  lemma QuantityPut(cart: Cart, upc: nat, e: Entry)
    ensures Quantity(cart[upc := e]) == Quantity(cart)[upc := e.qty]
  {
  }

  /** A checkout is refused exactly for an empty cart and for one with more of a product than the store has
      on hand at that moment. */
  lemma RefusedWhenShort(initial: map<nat, Product>, t: State)
    requires Inv(initial, t) && t.session.Some?
    ensures
      var cart := t.session.value.cart;
      Buyable(cart) <==> cart != map[] && forall k :: k in cart ==> cart[k].qty <= t.products[k].quantity
  {
  }

  /** Which commands end the program, case by case. */
  lemma ProgramEnds(initial: map<nat, Product>, t: State, step: Step)
    requires Catalogue(initial) && Inv(initial, t) && Enabled(t, step) && t.session.Some?
    ensures Next(t, step).exceptions > t.exceptions <==>
      match step
      case AddToCart(upc, entered) => upc >= TWO_64 || (upc in t.products && entered.Some? && entered.value >= TWO_64)
      case RemoveItem(upc) => upc >= TWO_64 && t.session.value.cart != map[]
      case ChangeQuantity(upc, number) => (upc >= TWO_64 || number >= TWO_64) && t.session.value.cart != map[]
      case FileAddress(zip, _) => zip >= TWO_64
      case FileCard(number, _, _) => number >= TWO_64
      case ViewOrder(index) => index >= TWO_64 && t.session.value.orders != []
      case Checkout(_, answers, _) =>
        Buyable(t.session.value.cart) && exists i: nat :: ThrowsAt(Opened(t.session.value), answers, i)
      case _ => false
    ensures Next(t, step).exceptions > t.exceptions ==> Next(t, step).session.None?
  {
    StepKeepsInv(initial, t, step);
    if step.Checkout? { TalkOutcome(Opened(t.session.value), step.answers); }
  }

  /** Which logins do: those to a record with a postal code, card number or expiry that is no number. */
  lemma LoginEnds(initial: map<nat, Product>, t: State, name: string)
    requires Catalogue(initial) && Inv(initial, t) && t.session.None? && name in t.users
    ensures
      var u := t.users[name];
      Next(t, Login(name)).exceptions > t.exceptions <==>
        || (u.zip.Some? && Stoul(u.zip.value).None?)
        || (u.card.Some? && (Stoul(u.card.value.number).None? || Stoul(u.card.value.exp).None?))
  {
    StepKeepsInv(initial, t, Login(name));
  }

  /** A card is filed from the menu exactly if its expiry has something other than white space. */
  lemma ExpiryRequired(s: State, number: nat, exp: string)
    requires s.session.Some? && number < TWO_64
    ensures
      var t := Next(s, FileCard(number, exp, true));
      if forall i :: 0 <= i < |exp| ==> exp[i] == ' ' || '\t' <= exp[i] <= '\r' then t == s
      else t.session.Some? && t.session.value.card == Some(Card(number, exp, number % TWO_32))
  {
  }

  // ----- what the store knows of the cart -----

  /** The commands that store the user: those that change the cart, those that put an address or card on
      file, from the account menu or during a checkout, and a checkout that goes through. */
  predicate Stores(t: State, step: Step) {
    && t.session.Some?
    && match step
       case Checkout(_, answers, confirm) =>
         && Buyable(t.session.value.cart)
         && (var d := Talk(Opened(t.session.value), answers); d.filed || (confirm && d.Complete()))
       case FileAddress(zip, kept) => Keeps(EnterAddress(zip, kept))
       case FileCard(number, exp, kept) => Keeps(EnterCard(number, exp, kept))
       case _ => Edits(t, step)
  }

  predicate NoLogin(steps: seq<Step>) {
    forall i :: 0 <= i < |steps| ==> !steps[i].Login?
  }

  /** The run has such a command after its last login. */
  ghost predicate StoredSinceLogin(s: State, steps: seq<Step>)
    decreases |steps|
  {
    && steps != [] && Enabled(s, steps[0])
    && (StoredSinceLogin(Next(s, steps[0]), steps[1..]) || (Stores(s, steps[0]) && NoLogin(steps[1..])))
  }

  lemma SavedStep(s: State, step: Step)
    requires Catalogue(s.products) && Enabled(s, step) && Next(s, step).session.Some?
    ensures Next(s, step).session.value.saved <==> !step.Login? && (s.session.value.saved || Stores(s, step))
  {
    match step
    case Login(name) =>
    case Checkout(id, answers, confirm) => SavedByCheckout(s, id, answers, confirm);
    case _ => SavedByEdit(s, step);
  }

  lemma SavedByCheckout(s: State, id: nat, answers: seq<Answer>, confirm: bool)
    requires s.session.Some? && CheckedOut(s, id, answers, confirm).session.Some?
    ensures CheckedOut(s, id, answers, confirm).session.value.saved <==>
      s.session.value.saved || Stores(s, Checkout(id, answers, confirm))
  {
  }

  lemma SavedByEdit(s: State, step: Step)
    requires Catalogue(s.products) && s.session.Some? && Enabled(s, step) && !Throws(s, step)
    requires !step.Checkout? && Edit(s, step).session.Some?
    ensures Edit(s, step).session.value.saved <==> s.session.value.saved || Stores(s, step)
  {
  }

  lemma {:induction false} SavedIffStored(initial: map<nat, Product>, s: State, steps: seq<Step>, t: State)
    requires Catalogue(initial) && Inv(initial, s) && Runs(s, steps, t) && t.session.Some?
    ensures t.session.value.saved <==>
      StoredSinceLogin(s, steps) || (NoLogin(steps) && s.session.Some? && s.session.value.saved)
    decreases |steps|
  {
    if steps != [] {
      var n := Next(s, steps[0]);
      StepKeepsInv(initial, s, steps[0]);
      SavedIffStored(initial, n, steps[1..], t);
      NoLoginSplit(steps);
      if n.session.Some? {
        CatalogueKept(initial, s);
        SavedStep(s, steps[0]);
      } else {
        LoginNeeded(n, steps[1..], t);
      }
    }
  }

  lemma NoLoginSplit(steps: seq<Step>)
    requires steps != []
    ensures NoLogin(steps) <==> !steps[0].Login? && NoLogin(steps[1..])
  {
    assert steps == [steps[0]] + steps[1..];
  }

  lemma LoginNeeded(s: State, steps: seq<Step>, t: State)
    requires s.session.None? && Runs(s, steps, t) && t.session.Some?
    ensures !NoLogin(steps)
  {
    assert steps[0].Login?;
  }

  /** During a session the stored cart is the cart in memory exactly when a command has stored the user
      since login or there is nothing in it: logging in empties the stored cart. */
  lemma StoredCartIsCurrent(s: State, steps: seq<Step>, t: State)
    requires Opening(s) && Runs(s, steps, t) && t.session.Some?
    ensures
      var u := t.session.value;
      && u.name in t.users
      && (Decode(t.users[u.name].cart) == Some(Quantity(u.cart)) <==>
          StoredSinceLogin(s, steps) || u.cart == map[])
  {
    RunKeepsInv(s.products, s, steps, t);
    SavedIffStored(s.products, s, steps, t);
    StoredIfSaved(s.products, t);
  }

  lemma StoredIfSaved(initial: map<nat, Product>, t: State)
    requires Catalogue(initial) && Inv(initial, t) && t.session.Some?
    ensures
      var u := t.session.value;
      && u.name in t.users
      && (Decode(t.users[u.name].cart) == Some(Quantity(u.cart)) <==> u.saved || u.cart == map[])
  {
    var u := t.session.value;
    CatalogueKept(initial, t);
    QuantityStorable(t.products, u.cart);
    RoundTrip(Quantity(u.cart));
    EmptyTextOk(t.products);
    if u.cart != map[] {
      var k :| k in u.cart;
      assert k in Quantity(u.cart);
    } else {
      assert Quantity(u.cart) == map[];
    }
  }

  /** So a session that only logs in and out loses the cart that was stored, and so does a login that
      fails on the stored card; one that fails on the stored address leaves everything as it was. */
  lemma LoginLosesCart(s: State, steps: seq<Step>, t: State, name: string)
    requires Opening(s) && Runs(s, steps, t) && t.session.None? && name in t.users
    ensures Enabled(t, Login(name)) && LosesCart(t, name, Next(t, Login(name)))
    ensures var u := Next(t, Login(name)); u.session.Some? ==> Enabled(u, Exit) && Next(u, Exit).users == u.users
  {
    RunKeepsInv(s.products, s, steps, t);
    assert UserOk(t, t.users[name]);
    LoginShowsAndEmpties(t, name);
  }

  /** Unless it fails on the address, a login from t to u empties the stored cart; it shows the record
      unless it fails on the card. */
  predicate LosesCart(t: State, name: string, u: State)
    requires name in t.users
  {
    var user := t.users[name];
    && name in u.users
    && (if BadZip(user) then u == Throw(t) else Decode(u.users[name].cart) == Some(map[]))
    && (u.session.Some? <==> !BadZip(user) && !BadCard(user))
    && (u.session.Some? ==> Shows(user, u.session.value))
  }

  /** The session has what the record says: cart, history, postal code and card, except that the security
      code is what the expiry begins with. */
  predicate Shows(user: User, v: Session) {
    && Decode(user.cart) == Some(Quantity(v.cart)) && v.orders == user.orders
    && (v.zip.Some? <==> user.zip.Some?) && (v.card.Some? <==> user.card.Some?)
    && (v.zip.Some? ==> Stoul(user.zip.value).Some? && v.zip.value == Stoul(user.zip.value).value % TWO_32)
    && (v.card.Some? ==>
          && Stoul(user.card.value.number) == Some(v.card.value.number) && v.card.value.exp == user.card.value.exp
          && Stoul(user.card.value.exp).Some? && v.card.value.cv2 == Stoul(user.card.value.exp).value % TWO_32)
  }

  lemma LoginShowsAndEmpties(t: State, name: string)
    requires t.session.None? && name in t.users && UserOk(t, t.users[name])
    ensures LosesCart(t, name, LogIn(t, name))
  {
    var items := Decode(t.users[name].cart).value;
    assert Quantity(map k | k in items :: Entry(t.products[k], items[k])) == items;
    EmptyTextOk(t.products);
  }

  // ----- entries of quantity 0 -----

  /** The command can take an entry of quantity 0 out of the cart. */
  predicate Clears(step: Step, upc: nat) {
    || step == ClearCart
    || (step.Checkout? && step.confirm)
    || (step.AddToCart? && step.upc == upc && Number(step.entered) != 0)
  }

  predicate HasZero(s: State, upc: nat) {
    s.session.Some? && upc in s.session.value.cart && s.session.value.cart[upc].qty == 0
  }

  lemma ZeroEntryStep(s: State, step: Step, upc: nat)
    requires Enabled(s, step) && HasZero(s, upc) && !Clears(step, upc)
    requires forall k :: k in s.products ==> s.products[k].upc == k
    ensures Next(s, step).products == s.products
    ensures Next(s, step).session.Some? ==> HasZero(Next(s, step), upc)
    ensures (step == RemoveItem(upc) || (step.ChangeQuantity? && step.upc == upc)) && !Throws(s, step) ==>
      Next(s, step) == s
  {
    if !step.Exit? && !step.Checkout? && !Throws(s, step) { ZeroEntryEdit(s, step, upc); }
  }

  lemma ZeroEntryEdit(s: State, step: Step, upc: nat)
    requires HasZero(s, upc) && !Clears(step, upc)
    requires forall k :: k in s.products ==> s.products[k].upc == k
    ensures Edit(s, step).products == s.products
    ensures Edit(s, step).session.Some? ==> HasZero(Edit(s, step), upc)
    ensures step == RemoveItem(upc) || (step.ChangeQuantity? && step.upc == upc) ==> Edit(s, step) == s
  {
  }

  /** An entry of quantity 0, as addtocart leaves it, can neither be removed nor changed: through the rest
      of the session it stays until the product is added with a quantity or the whole cart goes. */
  lemma {:induction false} ZeroEntryStays(s: State, steps: seq<Step>, t: State, upc: nat)
    requires HasZero(s, upc) && forall k :: k in s.products ==> s.products[k].upc == k
    requires Runs(s, steps, t) && forall i :: 0 <= i < |steps| ==> !steps[i].Login? && !Clears(steps[i], upc)
    ensures t.session.Some? ==> HasZero(t, upc)
    decreases |steps|
  {
    if steps != [] {
      ZeroEntryStep(s, steps[0], upc);
      if Next(s, steps[0]).session.Some? {
        ZeroEntryStays(Next(s, steps[0]), steps[1..], t, upc);
      }
    }
  }

}
