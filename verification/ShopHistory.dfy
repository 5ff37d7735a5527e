/** What the shop keeps and shows, from what its users have done: order histories, addresses and cards on
    file, and the course of a checkout dialogue. */
module ShopHistory {
  import opened Wrappers
  import opened CartText
  import opened Shop

  // ----- the record of the user who is logged in -----

  /** In a session the record in the store says what memory says, the cart apart. */
  predicate RecordOk(s: State) {
    s.session.Some? ==>
      var u := s.session.value;
      && u.name in s.users && s.users[u.name].orders == u.orders
      && s.users[u.name].zip == (if u.zip.None? then None else Some(ToString(u.zip.value)))
      && s.users[u.name].card == (if u.card.None? then None else Some(CardRecord(u.card.value)))
  }

  /** Storing a session that has lost neither address nor card. */
  lemma SaveKeepsRecord(s: State, u: Session)
    requires RecordOk(s) && s.session.Some? && u.name == s.session.value.name
    requires (s.session.value.zip.Some? ==> u.zip.Some?) && (s.session.value.card.Some? ==> u.card.Some?)
    ensures RecordOk(Save(s.(session := Some(u))))
  {
  }

  lemma {:induction false} TalkKeepsFile(d: Desk, answers: seq<Answer>)
    ensures d.zip.Some? ==> Talk(d, answers).zip.Some?
    ensures d.card.Some? ==> Talk(d, answers).card.Some?
    ensures !Talk(d, answers).filed ==> Talk(d, answers).zip == d.zip && Talk(d, answers).card == d.card
    ensures d.filed ==> Talk(d, answers).filed
  {
    if answers != [] { TalkKeepsFile(d, answers[..|answers| - 1]); }
  }

  lemma AfterTalkKeepsRecord(s: State, answers: seq<Answer>)
    requires RecordOk(s) && s.session.Some?
    ensures RecordOk(AfterTalk(s, Talk(Opened(s.session.value), answers)))
  {
    var u := s.session.value;
    var d := Talk(Opened(u), answers);
    TalkKeepsFile(Opened(u), answers);
    if d.filed { SaveKeepsRecord(s, u.(zip := d.zip, card := d.card)); }
  }

  lemma ChargeKeepsRecord(s: State, id: nat, cart: Cart, zip: nat, card: Card)
    requires RecordOk(s) && s.session.Some?
    ensures RecordOk(Charge(s, id, cart, zip, card))
  {
  }

  lemma EditKeepsRecord(s: State, step: Step)
    requires RecordOk(s) && s.session.Some?
    ensures RecordOk(Edit(s, step))
  {
  }

  lemma RecordStep(s: State, step: Step)
    requires RecordOk(s) && Enabled(s, step)
    ensures RecordOk(Next(s, step))
  {
    match step
    case Login(name) =>
    case Exit =>
    case Checkout(id, answers, confirm) =>
      var u := s.session.value;
      var d := Talk(Opened(u), answers);
      AfterTalkKeepsRecord(s, answers);
      if Buyable(u.cart) && !d.threw && confirm && d.Complete() {
        ChargeKeepsRecord(AfterTalk(s, d), id, u.cart, d.toZip.value, d.toCard.value);
      }
    case _ => if !Throws(s, step) { EditKeepsRecord(s, step); }
  }

  lemma {:induction false} RecordIsCurrent(s: State, steps: seq<Step>, t: State)
    requires RecordOk(s) && Runs(s, steps, t)
    ensures RecordOk(t)
    decreases |steps|
  {
    if steps != [] {
      RecordStep(s, steps[0]);
      RecordIsCurrent(Next(s, steps[0]), steps[1..], t);
    }
  }

  // ----- order histories -----

  /** The step places an order. */
  predicate Places(s: State, step: Step) {
    && s.session.Some? && step.Checkout? && step.confirm
    && Buyable(s.session.value.cart) && Talk(Opened(s.session.value), step.answers).Complete()
  }

  predicate PlacesFor(s: State, step: Step, name: string) {
    Places(s, step) && s.session.value.name == name
  }

  /** The orders that a user places in a run. */
  ghost function PlacedBy(s: State, steps: seq<Step>, name: string): seq<nat>
    decreases |steps|
  {
    if steps == [] || !Enabled(s, steps[0]) then []
    else (if PlacesFor(s, steps[0], name) then [steps[0].id] else []) + PlacedBy(Next(s, steps[0]), steps[1..], name)
  }

  lemma OrdersAtCheckout(s: State, id: nat, answers: seq<Answer>, confirm: bool, name: string)
    requires RecordOk(s) && s.session.Some? && name in s.users
    ensures
      var t := CheckedOut(s, id, answers, confirm);
      && name in t.users
      && t.users[name].orders ==
         s.users[name].orders + if PlacesFor(s, Checkout(id, answers, confirm), name) then [id] else []
  {
    var u := s.session.value;
    var d := Talk(Opened(u), answers);
    var t := AfterTalk(s, d);
    AfterTalkKeepsRecord(s, answers);
    assert name in t.users && t.users[name].orders == s.users[name].orders;
    if Buyable(u.cart) && confirm && d.Complete() {
      OrdersAtCharge(t, id, u.cart, d.toZip.value, d.toCard.value, name);
    }
  }

  lemma OrdersAtCharge(s: State, id: nat, cart: Cart, zip: nat, card: Card, name: string)
    requires RecordOk(s) && s.session.Some? && name in s.users
    ensures
      var t := Charge(s, id, cart, zip, card);
      && name in t.users
      && t.users[name].orders == s.users[name].orders + (if s.session.value.name == name then [id] else [])
      && t.users[name].zip == s.users[name].zip && t.users[name].card == s.users[name].card
  {
  }

  lemma OrdersAtStep(s: State, step: Step, name: string)
    requires RecordOk(s) && Enabled(s, step) && name in s.users
    ensures
      && name in Next(s, step).users
      && Next(s, step).users[name].orders ==
         s.users[name].orders + if PlacesFor(s, step, name) then [step.id] else []
  {
    match step
    case Login(other) => OrdersAtLogin(s, other, name);
    case Exit =>
    case Checkout(id, answers, confirm) => OrdersAtCheckout(s, id, answers, confirm, name);
    case _ => if !Throws(s, step) { OrdersAtEdit(s, step, name); }
  }

  lemma OrdersAtLogin(s: State, other: string, name: string)
    requires s.session.None? && name in s.users
    ensures name in LogIn(s, other).users && LogIn(s, other).users[name].orders == s.users[name].orders
  {
  }

  lemma OrdersAtEdit(s: State, step: Step, name: string)
    requires RecordOk(s) && s.session.Some? && name in s.users
    ensures name in Edit(s, step).users && Edit(s, step).users[name].orders == s.users[name].orders
  {
  }

  /** In every run the stored history of every user is the one at the opening followed by exactly the
      orders that the user has placed since, in order; and a session shows it. */
  lemma {:induction false} OrderHistory(s: State, steps: seq<Step>, t: State, name: string)
    requires RecordOk(s) && name in s.users && Runs(s, steps, t)
    ensures name in t.users && t.users[name].orders == s.users[name].orders + PlacedBy(s, steps, name)
    ensures t.session.Some? && t.session.value.name == name ==>
      t.session.value.orders == s.users[name].orders + PlacedBy(s, steps, name)
    decreases |steps|
  {
    RecordIsCurrent(s, steps, t);
    if steps != [] {
      var u := Next(s, steps[0]);
      RecordStep(s, steps[0]);
      OrdersAtStep(s, steps[0], name);
      OrderHistory(u, steps[1..], t, name);
      var mine := if PlacesFor(s, steps[0], name) then [steps[0].id] else [];
      OrdersJoin(s.users[name].orders, mine, PlacedBy(u, steps[1..], name));
    }
  }

  lemma OrdersJoin(a: seq<nat>, b: seq<nat>, c: seq<nat>)
    ensures a + b + c == a + (b + c)
  {
  }

  // ----- addresses and cards on file -----

  /** What a record says of address and card, as far as its numbers can be read. */
  datatype Filed = Filed(zip: Option<nat>, number: Option<nat>, exp: Option<string>)

  function ReadFiled(u: User): Filed {
    Filed(
      if u.zip.None? || Stoul(u.zip.value).None? then None else Some(Stoul(u.zip.value).value % TWO_32),
      if u.card.None? then None else Stoul(u.card.value.number),
      if u.card.None? then None else Some(u.card.value.exp))
  }

  function WithCard(f: Filed, card: Option<Card>): Filed {
    if card.None? then f else f.(number := Some(card.value.number), exp := Some(card.value.exp))
  }

  /** What the step puts on file for its user. */
  function FiledAt(s: State, step: Step, f: Filed): Filed
    requires s.session.Some?
  {
    match step
    case FileAddress(zip, kept) => if Keeps(EnterAddress(zip, kept)) then f.(zip := Some(zip % TWO_32)) else f
    case FileCard(number, exp, kept) =>
      if Keeps(EnterCard(number, exp, kept)) then f.(number := Some(number), exp := Some(exp)) else f
    case Checkout(_, answers, _) =>
      var d := Talk(Opened(s.session.value), answers);
      if Buyable(s.session.value.cart) then WithCard(f.(zip := d.zip), d.card) else f
    case _ => f
  }

  ghost function FiledBy(s: State, steps: seq<Step>, name: string, f: Filed): Filed
    decreases |steps|
  {
    if steps == [] || !Enabled(s, steps[0]) then f
    else
      FiledBy(Next(s, steps[0]), steps[1..], name,
              if s.session.Some? && s.session.value.name == name then FiledAt(s, steps[0], f) else f)
  }

  /** The numbers that the session would write can be read back. */
  predicate NumbersOk(s: State) {
    s.session.Some? ==> ZipOk(s.session.value.zip) && CardOk(s.session.value.card)
  }

  /** A session's record reads as memory says. */
  lemma RecordReads(s: State)
    requires RecordOk(s) && NumbersOk(s) && s.session.Some?
    ensures
      var u := s.session.value;
      ReadFiled(s.users[u.name]) == WithCard(Filed(u.zip, None, None), u.card)
  {
    var u := s.session.value;
    if u.zip.Some? { StoulOfToString(u.zip.value); }
    if u.card.Some? { StoulOfToString(u.card.value.number); }
  }

  lemma FiledAtStep(s: State, step: Step, name: string)
    requires RecordOk(s) && NumbersOk(s) && Enabled(s, step) && name in s.users
    requires RecordOk(Next(s, step)) && NumbersOk(Next(s, step))
    ensures
      && name in Next(s, step).users
      && ReadFiled(Next(s, step).users[name]) ==
         if s.session.Some? && s.session.value.name == name then FiledAt(s, step, ReadFiled(s.users[name]))
         else ReadFiled(s.users[name])
  {
    match step
    case Login(other) => FiledAtLogin(s, other, name);
    case Exit =>
    case Checkout(id, answers, confirm) => FiledAtCheckout(s, id, answers, confirm, name);
    case _ => if !Throws(s, step) { FiledAtEdit(s, step, name); }
  }

  lemma FiledAtLogin(s: State, other: string, name: string)
    requires s.session.None? && name in s.users
    ensures name in LogIn(s, other).users && ReadFiled(LogIn(s, other).users[name]) == ReadFiled(s.users[name])
  {
    if other == name {
      LoginRewrites(s, name);
      RewrittenReads(s.users[name], LogIn(s, name).users[name]);
    } else if other in s.users {
      LoginElsewhere(s, other, name);
    }
  }

  lemma LoginRewrites(s: State, name: string)
    requires s.session.None? && name in s.users
    ensures
      name in LogIn(s, name).users && Rewritten(s.users[name], LogIn(s, name).users[name])
  {
  }

  /** Login prints what it has read; the security code apart, that reads the same. */
  lemma RewrittenReads(u: User, v: User)
    requires Rewritten(u, v)
    ensures ReadFiled(v) == ReadFiled(u)
  {
    if v.zip != u.zip { StoulOfToString(ReadZip(u).value); }
    if v.card != u.card { StoulOfToString(ReadCard(u).value.number); }
  }

  predicate Rewritten(u: User, v: User) {
    && (v.zip == u.zip || (!BadZip(u) && u.zip.Some? && v.zip == Some(ToString(ReadZip(u).value))))
    && (v.card == u.card || (!BadCard(u) && u.card.Some? && v.card == Some(CardRecord(ReadCard(u).value))))
  }

  lemma FiledAtCheckout(s: State, id: nat, answers: seq<Answer>, confirm: bool, name: string)
    requires RecordOk(s) && NumbersOk(s) && s.session.Some? && name in s.users
    ensures
      var t := CheckedOut(s, id, answers, confirm);
      && name in t.users
      && ReadFiled(t.users[name]) ==
         if s.session.value.name == name then FiledAt(s, Checkout(id, answers, confirm), ReadFiled(s.users[name]))
         else ReadFiled(s.users[name])
  {
    var u := s.session.value;
    var d := Talk(Opened(u), answers);
    var t := AfterTalk(s, d);
    AfterTalkKeepsRecord(s, answers);
    FiledAtTalk(s, answers, name);
    if Buyable(u.cart) && confirm && d.Complete() {
      OrdersAtCharge(t, id, u.cart, d.toZip.value, d.toCard.value, name);
    }
  }

  lemma FiledAtTalk(s: State, answers: seq<Answer>, name: string)
    requires RecordOk(s) && NumbersOk(s) && s.session.Some? && name in s.users
    ensures
      var d := Talk(Opened(s.session.value), answers);
      var t := AfterTalk(s, d);
      && name in t.users
      && ReadFiled(t.users[name]) ==
         if s.session.value.name == name then WithCard(ReadFiled(s.users[name]).(zip := d.zip), d.card)
         else ReadFiled(s.users[name])
  {
    var u := s.session.value;
    TalkKeepsFile(Opened(u), answers);
    TalkKeepsDesk(Opened(u), answers);
    AfterTalkKeepsRecord(s, answers);
    RecordReads(s);
    RecordReads(AfterTalk(s, Talk(Opened(u), answers)));
  }

  lemma FiledAtEdit(s: State, step: Step, name: string)
    requires RecordOk(s) && NumbersOk(s) && s.session.Some? && name in s.users && !Throws(s, step)
    requires !step.Checkout? && NumbersOk(Edit(s, step))
    ensures
      && name in Edit(s, step).users
      && ReadFiled(Edit(s, step).users[name]) ==
         if s.session.value.name == name then FiledAt(s, step, ReadFiled(s.users[name])) else ReadFiled(s.users[name])
  {
    if s.session.value.name != name {
      StrangerAtEdit(s, step, name);
    } else {
      OwnFileAtEdit(s, step);
      EditKeepsRecord(s, step);
      RecordReads(s);
      if Edit(s, step).session.Some? { RecordReads(Edit(s, step)); }
    }
  }

  /** What the menu commands leave in memory. */
  lemma OwnFileAtEdit(s: State, step: Step)
    requires s.session.Some? && !Throws(s, step) && !step.Checkout?
    ensures
      var u, t := s.session.value, Edit(s, step);
      if t.session.None? then t.users == s.users && FiledAt(s, step, ReadFiled(User("", [], None, None))) == Filed(None, None, None)
      else
        && t.session.value.name == u.name
        && t.session.value.zip ==
           (if step.FileAddress? && Keeps(EnterAddress(step.zip, step.kept)) then Some(step.zip % TWO_32) else u.zip)
        && t.session.value.card ==
           (if step.FileCard? && Keeps(EnterCard(step.number, step.exp, step.kept))
            then Some(Card(step.number, step.exp, step.number % TWO_32)) else u.card)
  {
  }

  /** In every run a user's record shows the address and the card that the user has filed last, from the
      account menu or in a checkout, or else those at the opening. */
  lemma {:induction false} FilesByHistory(initial: map<nat, Product>, s: State, steps: seq<Step>, t: State, name: string)
    requires Catalogue(initial) && Inv(initial, s) && RecordOk(s) && name in s.users && Runs(s, steps, t)
    ensures name in t.users
    ensures ReadFiled(t.users[name]) == FiledBy(s, steps, name, ReadFiled(s.users[name]))
    decreases |steps|
  {
    if steps != [] {
      StepKeepsInv(initial, s, steps[0]);
      RecordStep(s, steps[0]);
      FiledAtStep(s, steps[0], name);
      FilesByHistory(initial, Next(s, steps[0]), steps[1..], t, name);
    }
  }

  /** From any opening: a user's stored history is the one then and exactly the orders placed since, the
      record shows the address and card filed last, and a session shows the history. */
  lemma RecordsByHistory(s: State, steps: seq<Step>, t: State, name: string)
    requires Opening(s) && name in s.users && Runs(s, steps, t)
    ensures name in t.users
    ensures t.users[name].orders == s.users[name].orders + PlacedBy(s, steps, name)
    ensures ReadFiled(t.users[name]) == FiledBy(s, steps, name, ReadFiled(s.users[name]))
    ensures t.session.Some? && t.session.value.name == name ==> t.session.value.orders == t.users[name].orders
  {
    OrderHistory(s, steps, t, name);
    FilesByHistory(s.products, s, steps, t, name);
  }

  // ----- nobody else -----

  /** A user's record changes only in that user's own logins and sessions. */
  lemma {:induction false} StrangersUntouched(s: State, steps: seq<Step>, t: State, other: string)
    requires other in s.users && (s.session.Some? ==> s.session.value.name != other)
    requires Runs(s, steps, t) && Login(other) !in steps
    ensures other in t.users && t.users[other] == s.users[other]
    decreases |steps|
  {
    if steps != [] {
      assert steps[0] in steps && forall x :: x in steps[1..] ==> x in steps;
      StrangerStep(s, steps[0], other);
      StrangersUntouched(Next(s, steps[0]), steps[1..], t, other);
    }
  }

  lemma StrangerStep(s: State, step: Step, other: string)
    requires Enabled(s, step) && other in s.users && (s.session.Some? ==> s.session.value.name != other)
    requires step != Login(other)
    ensures
      var t := Next(s, step);
      && other in t.users && t.users[other] == s.users[other]
      && (t.session.Some? ==> t.session.value.name != other)
  {
    match step
    case Login(name) => LoginElsewhere(s, name, other);
    case Exit =>
    case Checkout(id, answers, confirm) => StrangerAtCheckout(s, id, answers, confirm, other);
    case _ => if !Throws(s, step) { StrangerAtEdit(s, step, other); }
  }

  lemma StrangerAtCheckout(s: State, id: nat, answers: seq<Answer>, confirm: bool, other: string)
    requires s.session.Some? && other in s.users && s.session.value.name != other
    ensures
      var t := CheckedOut(s, id, answers, confirm);
      && other in t.users && t.users[other] == s.users[other]
      && (t.session.Some? ==> t.session.value.name != other)
  {
    var u := s.session.value;
    var d := Talk(Opened(u), answers);
    var t := AfterTalk(s, d);
    assert other in t.users && t.users[other] == s.users[other] && t.session.value.name == u.name;
    if Buyable(u.cart) && confirm && d.Complete() {
      StrangerAtCharge(t, id, u.cart, d.toZip.value, d.toCard.value, other);
    }
  }

  lemma StrangerAtCharge(s: State, id: nat, cart: Cart, zip: nat, card: Card, other: string)
    requires s.session.Some? && other in s.users && s.session.value.name != other
    ensures
      var t := Charge(s, id, cart, zip, card);
      && other in t.users && t.users[other] == s.users[other]
      && t.session.Some? && t.session.value.name != other
  {
  }

  lemma StrangerAtEdit(s: State, step: Step, other: string)
    requires s.session.Some? && other in s.users && s.session.value.name != other
    ensures
      var t := Edit(s, step);
      && other in t.users && t.users[other] == s.users[other]
      && (t.session.Some? ==> t.session.value.name != other)
  {
  }

  /** A command that is neither an edit nor an order leaves the cart alone. */
  lemma CartUntouched(s: State, step: Step)
    requires Catalogue(s.products) && Enabled(s, step) && s.session.Some? && !step.Exit?
    requires !Throws(s, step) && !Edits(s, step) && !Places(s, step)
    ensures Next(s, step).session.Some? && Next(s, step).session.value.cart == s.session.value.cart
  {
  }

  // ----- the course of a checkout dialogue -----

  /** What an answer can do: settle the address or the card of the order, put one of them on file, or make
      the program throw. */
  datatype Event = SettlesZip | SettlesCard | FilesZip | FilesCard | Ends

  predicate Happens(d: Desk, answers: seq<Answer>, i: nat, e: Event) {
    && HeardAt(d, answers, i)
    && match e
       case SettlesZip => answers[i] == UseAddress(true) || (answers[i].EnterAddress? && Keeps(answers[i]))
       case SettlesCard => answers[i] == UseCard(true) || (answers[i].EnterCard? && Keeps(answers[i]))
       case FilesZip => answers[i].EnterAddress? && Keeps(answers[i])
       case FilesCard => answers[i].EnterCard? && Keeps(answers[i])
       case Ends => TooBig(answers[i])
  }

  /** The last answer at which it happens. */
  function Last(d: Desk, answers: seq<Answer>, e: Event): Option<nat> {
    if answers == [] then None
    else
      var n := |answers| - 1;
      if Happens(d, answers, n, e) then Some(n) else Last(d, answers[..n], e)
  }

  lemma {:induction false} LastIs(d: Desk, answers: seq<Answer>, e: Event)
    ensures
      var i := Last(d, answers, e);
      && (i.None? ==> forall j: nat :: !Happens(d, answers, j, e))
      && (i.Some? ==> Happens(d, answers, i.value, e) && forall j: nat :: Happens(d, answers, j, e) ==> j <= i.value)
  {
    if answers != [] {
      var n := |answers| - 1;
      LastIs(d, answers[..n], e);
      forall j: nat | j < n ensures Happens(d, answers, j, e) <==> Happens(d, answers[..n], j, e) {
        assert answers[..n][..j] == answers[..j];
      }
    }
  }

  /** The address that answer i gives: the one entered, or the one on file at that point. */
  function ZipGiven(d: Desk, answers: seq<Answer>, i: nat): Option<nat>
    requires i < |answers|
  {
    if answers[i].EnterAddress? then Some(answers[i].zip % TWO_32) else Talk(d, answers[..i]).zip
  }

  function CardGiven(d: Desk, answers: seq<Answer>, i: nat): Option<Card>
    requires i < |answers|
  {
    if answers[i].EnterCard? then Some(Card(answers[i].number, answers[i].exp, answers[i].number % TWO_32))
    else Talk(d, answers[..i]).card
  }

  /** After any answers, order and file hold what was settled and filed last. */
  ghost predicate AsSaid(d: Desk, answers: seq<Answer>, e: Event) {
    var now, i := Talk(d, answers), Last(d, answers, e);
    && (i.Some? ==> i.value < |answers|)
    && match e
       case SettlesZip => now.toZip == if i.None? then d.toZip else ZipGiven(d, answers, i.value)
       case SettlesCard => now.toCard == if i.None? then d.toCard else CardGiven(d, answers, i.value)
       case FilesZip => now.zip == if i.None? then d.zip else ZipGiven(d, answers, i.value)
       case FilesCard => now.card == if i.None? then d.card else CardGiven(d, answers, i.value)
       case Ends => now.threw <==> d.threw || i.Some?
  }

  lemma {:induction false} TalkAsSaid(d: Desk, answers: seq<Answer>, e: Event)
    ensures AsSaid(d, answers, e)
  {
    if answers != [] {
      var n := |answers| - 1;
      TalkAsSaid(d, answers[..n], e);
      var i := Last(d, answers[..n], e);
      if i.Some? { assert answers[..n][..i.value] == answers[..i.value]; }
      AnswerEffect(d, answers, e);
    }
  }

  /** The last answer changes what it is said to change, and nothing else. */
  lemma AnswerEffect(d: Desk, answers: seq<Answer>, e: Event)
    requires answers != []
    ensures
      var n := |answers| - 1;
      var before, now, hit := Talk(d, answers[..n]), Talk(d, answers), Happens(d, answers, n, e);
      match e
      case SettlesZip => now.toZip == if hit then ZipGiven(d, answers, n) else before.toZip
      case SettlesCard => now.toCard == if hit then CardGiven(d, answers, n) else before.toCard
      case FilesZip => now.zip == if hit then ZipGiven(d, answers, n) else before.zip
      case FilesCard => now.card == if hit then CardGiven(d, answers, n) else before.card
      case Ends => now.threw <==> before.threw || hit
  {
  }

  /** What was given is there: only what is on file is offered. */
  lemma {:induction false} GivenIsThere(d: Desk, answers: seq<Answer>)
    requires d.toZip.None? && d.toCard.None?
    ensures Talk(d, answers).toZip.Some? <==> Last(d, answers, SettlesZip).Some?
    ensures Talk(d, answers).toCard.Some? <==> Last(d, answers, SettlesCard).Some?
    ensures Talk(d, answers).zip.Some? <==> d.zip.Some? || Last(d, answers, FilesZip).Some?
    ensures Talk(d, answers).card.Some? <==> d.card.Some? || Last(d, answers, FilesCard).Some?
  {
    if answers != [] {
      GivenIsThere(d, answers[..|answers| - 1]);
      AnswerEffect(d, answers, SettlesZip);
      AnswerEffect(d, answers, SettlesCard);
      AnswerEffect(d, answers, FilesZip);
      AnswerEffect(d, answers, FilesCard);
    }
  }

  /** When each question is asked: a card only once an address is settled, nothing once the card is settled
      or after an exception, an address as long as none is settled, and what is on file as soon as it is
      there. */
  lemma QuestionsInOrder(u: Session, answers: seq<Answer>, i: nat)
    requires i < |answers|
    ensures
      var d, before := Opened(u), answers[..i];
      HeardAt(d, answers, i) <==>
        && Last(d, before, SettlesCard).None? && Last(d, before, Ends).None?
        && match answers[i]
           case UseAddress(_) => u.zip.Some? || Last(d, before, FilesZip).Some?
           case EnterAddress(_, _) => Last(d, before, SettlesZip).None?
           case UseCard(_) =>
             Last(d, before, SettlesZip).Some? && (u.card.Some? || Last(d, before, FilesCard).Some?)
           case EnterCard(_, _, _) => Last(d, before, SettlesZip).Some?
  {
    GivenIsThere(Opened(u), answers[..i]);
    TalkAsSaid(Opened(u), answers[..i], Ends);
  }
}
