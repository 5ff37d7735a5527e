/** The shop as a program: the objects behind the commands of main.cpp and the store they write to. */
module ShopProgram {
  import opened Wrappers
  import opened CartText
  import opened Shop
  import Ascending

  class ShoppingCenter {
    var products: map<nat, Product>
    var users: map<string, User>
    var orders: map<nat, Order>
    var placed: seq<(nat, Cart)>
    var session: Option<Session>
    var exceptions: nat

    ghost function S(): State reads this {
      State(products, users, orders, placed, session, exceptions)
    }

    constructor (products: map<nat, Product>, users: map<string, User>, orders: map<nat, Order>)
      ensures S() == State(products, users, orders, [], None, 0)
    {
      this.products, this.users, this.orders := products, users, orders;
      placed, session, exceptions := [], None, 0;
    }

    /** storeUser(logged_in) */
    method StoreUser()
      requires session.Some?
      modifies this
      ensures S() == Save(old(S()))
    {
      var u := session.value;
      var text := CartToText(Quantity(u.cart));
      var record := if u.name in users then users[u.name] else User("", [], None, None);
      if u.zip.Some? {
        record := record.(zip := Some(ToString(u.zip.value)));
      }
      if u.card.Some? {
        record := record.(card := Some(CardRecord(u.card.value)));
      }
      users := users[u.name := record.(orders := u.orders, cart := text)];
      session := Some(u.(saved := true));
    }

    /** User::changeShippingAddress */
    method ChangeShippingAddress(zip: nat)
      requires session.Some?
      modifies this
      ensures S() == OnFile(old(S()), Some(zip), old(session.value.card))
    {
      session := Some(session.value.(zip := Some(zip)));
      StoreUser();
    }

    /** User::changeCreditCard */
    method ChangeCreditCard(card: Card)
      requires session.Some?
      modifies this
      ensures S() == OnFile(old(S()), old(session.value.zip), Some(card))
    {
      session := Some(session.value.(card := Some(card)));
      StoreUser();
    }

    /** An exception that main does not catch. */
    method Fail()
      modifies this`session, this`exceptions
      ensures S() == Throw(old(S()))
    {
      session, exceptions := None, exceptions + 1;
    }

    /** ShoppingCart::deleteProduct on the cart of the logged-in user */
    method DeleteProduct(upc: nat)
      requires session.Some?
      modifies this
      ensures S() == WithCart(old(S()), old(session.value.cart) - {upc})
    {
      session := Some(session.value.(cart := session.value.cart - {upc}));
      StoreUser();
    }

    /** ShoppingCart::addProduct(Product, unsigned int) */
    method PutProduct(p: Product, qty: nat)
      requires session.Some?
      modifies this
      ensures S() == AddProduct(old(S()), p, qty)
    {
      ghost var before := S();
      if qty == 0 {
        DeleteProduct(p.upc);
      }
      ghost var cart := before.session.value.cart;
      assert session.value.cart[p.upc := Entry(p, qty)] == cart[p.upc := Entry(p, qty)];
      session := Some(session.value.(cart := session.value.cart[p.upc := Entry(p, qty)]));
      StoreUser();
      assert users == AddProduct(before, p, qty).users;
    }

    /** ShoppingCart::emptyCart */
    method EmptyCart()
      requires session.Some?
      modifies this
      ensures S() == WithCart(old(S()), map[])
    {
      session := Some(session.value.(cart := map[]));
      StoreUser();
    }

    /** The validity test of the cart page, of buyCart and of chargeCreditCard. */
    static method HasInvalid(cart: Cart) returns (invalid: bool)
      ensures invalid <==> Invalid(cart)
    {
      var left := cart.Keys;
      while left != {}
        invariant left <= cart.Keys
        invariant forall k :: k in cart && k !in left ==> cart[k].qty <= cart[k].product.quantity
        decreases left
      {
        var upc := Ascending.FindLeast(left);
        left := left - {upc};
        if cart[upc].qty > cart[upc].product.quantity { return true; }
      }
      invalid := false;
    }

    /** The transaction's amount. */
    static method Total(cart: Cart) returns (amount: int)
      ensures amount == Amount(cart)
    {
      amount := 0;
      var left := cart;
      while left != map[]
        invariant left.Keys <= cart.Keys && amount + Amount(left) == Amount(cart)
        decreases left.Keys
      {
        var upc := Ascending.FindLeast(left.Keys);
        amount := amount + left[upc].product.price * left[upc].qty;
        left := left - {upc};
      }
    }

    /** The loop of chargeCreditCard: stock is written back from the snapshots in the cart. */
    method TakeStock(cart: Cart) returns (ok: bool)
      modifies this`products
      ensures ok <==> !Invalid(cart)
      ensures ok ==> products == old(products) + map k | k in cart :: Sold(cart[k])
    {
      var left := cart.Keys;
      while left != {}
        invariant left <= cart.Keys
        invariant forall k :: k in cart && k !in left ==> cart[k].qty <= cart[k].product.quantity
        invariant products == old(products) + map k | k in cart && k !in left :: Sold(cart[k])
        decreases left
      {
        var upc := Ascending.FindLeast(left);
        left := left - {upc};
        var e := cart[upc];
        if e.product.quantity < e.qty { return false; }   // throws runtime_error
        products := products[upc := e.product.(quantity := e.product.quantity - e.qty)];
      }
      ok := true;
    }

    /** The dialogue of a checkout: each entry that is confirmed is put on file at once. */
    method Converse(answers: seq<Answer>) returns (desk: Desk)
      requires session.Some?
      modifies this
      ensures desk == Talk(Opened(old(session.value)), answers) && S() == AfterTalk(old(S()), desk)
    {
      ghost var start := Opened(session.value);
      desk := Opened(session.value);
      for i := 0 to |answers|
        invariant session.Some? && desk == Talk(start, answers[..i])
        invariant S() == AfterTalk(old(S()), desk) && session.value.zip == desk.zip && session.value.card == desk.card
      {
        assert answers[..i + 1][..i] == answers[..i];
        desk := Respond(old(S()), desk, answers[i]);
      }
      assert answers[..|answers|] == answers;
    }

    /** One answer in it; `from` is the state at its beginning. */
    method Respond(ghost from: State, before: Desk, a: Answer) returns (desk: Desk)
      requires session.Some? && from.session.Some? && S() == AfterTalk(from, before)
      requires session.value.zip == before.zip && session.value.card == before.card
      modifies this
      ensures desk == Hear(before, a) && S() == AfterTalk(from, desk)
      ensures session.Some? && session.value.zip == desk.zip && session.value.card == desk.card
    {
      desk := before;
      if !Asked(desk, a) { return; }
      match a {
        case UseAddress(yes) =>
          if yes { desk := desk.(toZip := desk.zip); }
        case EnterAddress(zip, kept) =>
          if zip >= TWO_64 { return desk.(threw := true); }
          if kept {
            OnFileAgain(from, before, Some(zip % TWO_32), before.card);
            ChangeShippingAddress(zip % TWO_32);
            desk := desk.(zip := Some(zip % TWO_32), toZip := Some(zip % TWO_32), filed := true);
          }
        case UseCard(yes) =>
          if yes { desk := desk.(toCard := desk.card); }
        case EnterCard(number, exp, kept) =>
          if number >= TWO_64 { return desk.(threw := true); }
          if kept && !Blank(exp) {
            var card := Card(number, exp, number % TWO_32);
            OnFileAgain(from, before, before.zip, Some(card));
            ChangeCreditCard(card);
            desk := desk.(card := Some(card), toCard := Some(card), filed := true);
          }
      }
    }

    /** The checkout command: buyCart, the dialogue, then chargeCreditCard if the order is confirmed. */
    method CheckOut(id: nat, answers: seq<Answer>, confirm: bool)
      requires Enabled(S(), Checkout(id, answers, confirm))
      modifies this
      ensures S() == Next(old(S()), Checkout(id, answers, confirm))
    {
      var cart := session.value.cart;
      var invalid := HasInvalid(cart);
      if cart == map[] || invalid { return; }
      var amount := Total(cart);
      var desk := Converse(answers);
      if desk.threw {
        Fail();
      } else if confirm && desk.Complete() {
        ChargeCard(id, cart, amount, desk.toZip.value, desk.toCard.value);
      }
    }

    /** Transaction::chargeCreditCard */
    method ChargeCard(id: nat, cart: Cart, amount: int, zip: nat, card: Card)
      requires session.Some? && amount == Amount(cart) && !Invalid(cart)
      modifies this
      ensures S() == Charge(old(S()), id, cart, zip, card)
    {
      var ok := TakeStock(cart);
      assert ok;                                  // the runtime errors cannot happen
      RecordOrder(id, cart, amount, zip, card);
      EmptyCart();
    }

    /** The part of it that puts the order on record. */
    method RecordOrder(id: nat, cart: Cart, amount: int, zip: nat, card: Card)
      requires session.Some? && amount == Amount(cart)
      modifies this
      ensures S() == Recorded(old(S()), id, cart, zip, card)
    {
      var items := CartToText(Quantity(cart));
      orders := orders[id := Order(items, amount, ToString(zip), CardRecord(card))];
      placed := placed + [(id, cart)];
      session := Some(session.value.(orders := session.value.orders + [id]));
    }

    /** The loop of getUser over the order history, with getTransaction. */
    method ReadOrders(ids: seq<nat>) returns (ok: bool)
      ensures ok <==> OrdersRead(products, orders, ids)
    {
      for i := 0 to |ids|
        invariant OrdersRead(products, orders, ids[..i])
      {
        assert ids[..i + 1] == ids[..i] + [ids[i]];
        if ids[i] !in orders { return false; }
        var order := orders[ids[i]];
        var items := TextToCart(order.items);
        if items.None? || !Storable(items.value) || !(items.value.Keys <= products.Keys) { return false; }
        if Stoul(order.zip).None? || Stoul(order.card.number).None? || Stoul(order.card.cv2).None? { return false; }
      }
      assert ids[..|ids|] == ids;
      ok := true;
    }

    /** getUser at login */
    method LogInAs(name: string)
      requires Enabled(S(), Login(name))
      modifies this
      ensures S() == Next(old(S()), Login(name))
    {
      if name !in users { return; }
      var user := users[name];
      var ok := ReadOrders(user.orders);
      if !ok || BadZip(user) {
        Fail();
        return;
      }
      var zip := ReadZip(user);
      var record := user.(cart := "", zip := if zip.None? then None else Some(ToString(zip.value)));
      users := users[name := record];             // changeShippingAddress
      if BadCard(user) {
        Fail();
        return;
      }
      var card := ReadCard(user);
      record := record.(card := if card.None? then None else Some(CardRecord(card.value)));
      users := users[name := record];             // changeCreditCard
      assert users == old(users)[name := record];
      LoadCart(name, user, zip, card);
    }

    /** Its loop over the stored cart. */
    method LoadCart(name: string, user: User, zip: Option<nat>, card: Option<Card>)
      requires session.None?
      modifies this`session, this`exceptions
      ensures S() == FillCart(old(S()), name, user, zip, card)
    {
      var items := TextToCart(user.cart);
      if items.None? {
        Fail();
      } else if items.value.Keys <= products.Keys {
        var cart := map k | k in items.value :: Entry(products[k], items.value[k]);
        session := Some(Session(name, cart, user.orders, zip, card, false));
      }
    }

    /** The commands that change the cart. */
    method EditCart(step: Step)
      requires Enabled(S(), step) && (step.AddToCart? || step.RemoveItem? || step.ChangeQuantity? || step.ClearCart?)
      modifies this
      ensures S() == Next(old(S()), step)
    {
      var cart := session.value.cart;
      match step {
        case AddToCart(upc, entered) =>
          if upc >= TWO_64 { Fail(); return; }
          if upc !in products { return; }
          var p := products[upc];
          if entered.Some? && entered.value >= TWO_64 { Fail(); return; }
          var qty := Number(entered);
          if qty != 1 || !InCart(cart, p.upc) {
            PutProduct(p, qty);
          }
        case RemoveItem(upc) =>
          if cart == map[] { return; }
          if upc >= TWO_64 { Fail(); return; }
          if InCart(cart, upc) {
            DeleteProduct(upc);
          }
        case ChangeQuantity(upc, number) =>
          if cart == map[] { return; }
          if upc >= TWO_64 || number >= TWO_64 { Fail(); return; }
          if InCart(cart, upc) {
            if upc !in products {
              Fail();
            } else {
              PutProduct(products[upc], number % TWO_32);
            }
          }
        case ClearCart =>
          if cart != map[] {
            EmptyCart();
          }
      }
    }

    /** The account menu. */
    method ManageAccount(step: Step)
      requires Enabled(S(), step) && (step.FileAddress? || step.FileCard? || step.ViewOrder?)
      modifies this
      ensures S() == Next(old(S()), step)
    {
      match step {
        case FileAddress(zip, kept) =>
          if zip >= TWO_64 { Fail(); return; }
          if kept { ChangeShippingAddress(zip % TWO_32); }
        case FileCard(number, exp, kept) =>
          if number >= TWO_64 { Fail(); return; }
          if kept && !Blank(exp) { ChangeCreditCard(Card(number, exp, number % TWO_32)); }
        case ViewOrder(index) =>
          if session.value.orders == [] { return; }
          if index >= TWO_64 { Fail(); }
      }
    }
  }

  /** Storing the user again overwrites what was stored. */
  lemma OnFileAgain(s: State, d: Desk, zip: Option<nat>, card: Option<Card>)
    requires s.session.Some? && (d.filed && d.zip.Some? ==> zip.Some?) && (d.filed && d.card.Some? ==> card.Some?)
    ensures OnFile(AfterTalk(s, d), zip, card) == OnFile(s, zip, card)
  {
    if d.filed {
      var t := OnFile(s, d.zip, d.card);
      var name := s.session.value.name;
      assert t.users[name := OnFile(t, zip, card).users[name]] == s.users[name := OnFile(t, zip, card).users[name]];
    }
  }
}
