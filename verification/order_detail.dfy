/** `OrderDetailViewController.saveButtonTapped`: trimming, field checks and
    the dispatch to `createOrder` or `updateOrder`. */
module OrderDetailViewController {
  import opened Common
  import opened Text
  import opened CoreDataManager
  import Validator

  /** The raw contents of the form: five text fields and the date picker. */
  datatype OrderForm = OrderForm(
    orderNumber: string,
    buyerName: string,
    address: string,
    phone: string,
    total: string,
    dueDate: Date)

  datatype FieldError =
    | OrderNumberEmpty
    | CustomerNameEmpty
    | CustomerAddressEmpty
    | CustomerPhoneEmpty
    | TotalInvalid
    | TotalNegative

  /** The text of the validation alert. */
  function Message(e: FieldError): string
  {
    match e
    case OrderNumberEmpty => "Order Number cannot be empty."
    case CustomerNameEmpty => "Customer Name cannot be empty."
    case CustomerAddressEmpty => "Customer Address cannot be empty."
    case CustomerPhoneEmpty => "Customer Phone cannot be empty."
    case TotalInvalid => "Valid Order Total is required."
    case TotalNegative => "Order Total must be a positive number."
  }

  /** Each validation alert has its own text. */
  lemma MessagesDistinct(a: FieldError, b: FieldError)
    ensures Message(a) == Message(b) ==> a == b
  {
  }

  datatype Checked = Accepted(fields: OrderFields) | Rejected(error: FieldError)

  /** No text field of the form is blank (empty or whitespace only). */
  ghost predicate Filled(form: OrderForm)
  {
    && !AllWhitespace(form.orderNumber) && !AllWhitespace(form.buyerName)
    && !AllWhitespace(form.address) && !AllWhitespace(form.phone) && !AllWhitespace(form.total)
  }

  /** The form's checks, in order, each on the trimmed field. The phone
      number is not checked against any format. The total must parse and be
      at least 0. */
  function CheckForm(form: OrderForm, parse: string -> Option<real>): (r: Checked)
    ensures r == Rejected(OrderNumberEmpty) <==> Trim(form.orderNumber) == []
    ensures r == Rejected(CustomerNameEmpty) <==>
              Trim(form.orderNumber) != [] && Trim(form.buyerName) == []
    ensures r == Rejected(CustomerAddressEmpty) <==>
              Trim(form.orderNumber) != [] && Trim(form.buyerName) != [] && Trim(form.address) == []
    ensures r == Rejected(CustomerPhoneEmpty) <==>
              Trim(form.orderNumber) != [] && Trim(form.buyerName) != [] && Trim(form.address) != []
              && Trim(form.phone) == []
    ensures r == Rejected(TotalInvalid) <==>
              Trim(form.orderNumber) != [] && Trim(form.buyerName) != [] && Trim(form.address) != []
              && Trim(form.phone) != [] && (Trim(form.total) == [] || parse(Trim(form.total)).None?)
    ensures r == Rejected(TotalNegative) ==> parse(Trim(form.total)).Some? && parse(Trim(form.total)).value < 0.0
    ensures r.Accepted? ==>
              && r.fields == OrderFields(Trim(form.orderNumber), form.dueDate, Trim(form.buyerName),
                                         Trim(form.address), Trim(form.phone), r.fields.total)
              && r.fields.orderNumber != [] && r.fields.buyerName != []
              && r.fields.address != [] && r.fields.phone != []
              && parse(Trim(form.total)) == Some(r.fields.total) && r.fields.total >= 0.0
  {
    var orderNumber := Trim(form.orderNumber);
    var buyerName := Trim(form.buyerName);
    var address := Trim(form.address);
    var phone := Trim(form.phone);
    var totalText := Trim(form.total);
    if orderNumber == [] then Rejected(OrderNumberEmpty)
    else if buyerName == [] then Rejected(CustomerNameEmpty)
    else if address == [] then Rejected(CustomerAddressEmpty)
    else if phone == [] then Rejected(CustomerPhoneEmpty)
    else if totalText == [] || parse(totalText).None? then Rejected(TotalInvalid)
    else if parse(totalText).value < 0.0 then Rejected(TotalNegative)
    else Accepted(OrderFields(orderNumber, form.dueDate, buyerName, address, phone, parse(totalText).value))
  }

  /** A field holding nothing but whitespace is rejected as empty: the first
      such field in check order is the one reported. */
  lemma BlankFieldRejected(form: OrderForm, parse: string -> Option<real>)
    ensures AllWhitespace(form.orderNumber) ==> CheckForm(form, parse) == Rejected(OrderNumberEmpty)
    ensures !AllWhitespace(form.orderNumber) && AllWhitespace(form.buyerName) ==>
              CheckForm(form, parse) == Rejected(CustomerNameEmpty)
    ensures !AllWhitespace(form.orderNumber) && !AllWhitespace(form.buyerName) && AllWhitespace(form.address) ==>
              CheckForm(form, parse) == Rejected(CustomerAddressEmpty)
    ensures !AllWhitespace(form.orderNumber) && !AllWhitespace(form.buyerName) && !AllWhitespace(form.address)
            && AllWhitespace(form.phone)
            ==> CheckForm(form, parse) == Rejected(CustomerPhoneEmpty)
    ensures CheckForm(form, parse).Accepted? ==>
              !AllWhitespace(form.orderNumber) && !AllWhitespace(form.buyerName)
              && !AllWhitespace(form.address) && !AllWhitespace(form.phone)
  {
    TrimEmptyIffAllWhitespace(form.orderNumber);
    TrimEmptyIffAllWhitespace(form.buyerName);
    TrimEmptyIffAllWhitespace(form.address);
    TrimEmptyIffAllWhitespace(form.phone);
  }

  /** How a tap on Save ends. `Saved` is the only outcome on which the
      delegate's `didSaveOrder` is called. */
  datatype SaveOutcome = Invalid(error: FieldError) | SaveFailed | Saved

  /** The store side of a tap on Save, given the outcome of the checks: a
      rejection is reported without touching the store; accepted fields
      update the order being edited, keeping its id and owner, or become a
      new order of the current user. The delegate hears of it only when the
      store reported success. */
  function Commit(st: Store, currentUser: Option<User>, editing: Option<Order>, c: Checked, saved: bool)
    : (r: (Store, SaveOutcome))
    ensures c.Rejected? ==> r == (st, Invalid(c.error))
    ensures r.1.Invalid? <==> c.Rejected?
    ensures c.Accepted? && editing.Some? ==>
              |r.0.orders| == |st.orders| && r.0.users == st.users
              && forall i :: 0 <= i < |st.orders| ==>
                   r.0.orders[i].id == st.orders[i].id && r.0.orders[i].owner == st.orders[i].owner
                   && (st.orders[i].id == editing.value.id ==> HoldsFields(r.0.orders[i], c.fields))
                   && (st.orders[i].id != editing.value.id ==> r.0.orders[i] == st.orders[i])
    ensures c.Accepted? && editing.None? && currentUser.None? ==> r == (st, SaveFailed)
    ensures c.Accepted? && editing.None? && currentUser.Some? ==>
              |r.0.orders| == |st.orders| + 1 && r.0.orders[..|st.orders|] == st.orders
              && r.0.users == st.users
              && r.0.orders[|st.orders|].owner == currentUser.value.id
              && HoldsFields(r.0.orders[|st.orders|], c.fields)
    ensures r.1 == Saved <==> c.Accepted? && saved && (editing.Some? || currentUser.Some?)
  {
    match c
    case Rejected(e) => (st, Invalid(e))
    case Accepted(f) =>
      var (st', ok) :=
        if editing.Some? then UpdateOrder(st, editing.value.id, f, saved)
        else CreateOrder(st, currentUser, f, saved);
      (st', if ok then Saved else SaveFailed)
  }

  /** `saveButtonTapped`: the form's checks, then the store operation. */
  function SaveButtonTapped(st: Store, currentUser: Option<User>, editing: Option<Order>, form: OrderForm,
                            parse: string -> Option<real>, saved: bool): (r: (Store, SaveOutcome))
    ensures CheckForm(form, parse).Rejected? ==> r == (st, Invalid(CheckForm(form, parse).error))
    ensures r.1.Invalid? <==> CheckForm(form, parse).Rejected?
    ensures CheckForm(form, parse).Accepted? && editing.Some? ==>
              r.0 == UpdateOrder(st, editing.value.id, CheckForm(form, parse).fields, saved).0
    ensures CheckForm(form, parse).Accepted? && editing.None? ==>
              r.0 == CreateOrder(st, currentUser, CheckForm(form, parse).fields, saved).0
    ensures r.1 == Saved <==> CheckForm(form, parse).Accepted? && saved && (editing.Some? || currentUser.Some?)
  {
    Commit(st, currentUser, editing, CheckForm(form, parse), saved)
  }

  /** Saving never reassigns an order: every order already stored keeps its
      id and owner, and an order added belongs to the current user. */
  lemma SaveKeepsOwners(st: Store, currentUser: Option<User>, editing: Option<Order>, c: Checked, saved: bool)
    ensures var r := Commit(st, currentUser, editing, c, saved).0;
            && |st.orders| <= |r.orders|
            && (forall i :: 0 <= i < |st.orders| ==> r.orders[i].id == st.orders[i].id && r.orders[i].owner == st.orders[i].owner)
            && (forall i :: |st.orders| <= i < |r.orders| ==> currentUser.Some? && r.orders[i].owner == currentUser.value.id)
  {
    if c.Accepted? {
      if editing.Some? {
        UpdateKeepsOwners(st, editing.value.id, c.fields, saved);
      } else {
        CreateKeepsOwners(st, currentUser, c.fields, saved);
      }
    }
  }

  lemma UpdateKeepsOwners(st: Store, orderId: Id, f: OrderFields, saved: bool)
    ensures var r := UpdateOrder(st, orderId, f, saved).0;
            && |st.orders| == |r.orders|
            && forall i :: 0 <= i < |st.orders| ==> r.orders[i].id == st.orders[i].id && r.orders[i].owner == st.orders[i].owner
  {
  }

  lemma CreateKeepsOwners(st: Store, currentUser: Option<User>, f: OrderFields, saved: bool)
    ensures var r := CreateOrder(st, currentUser, f, saved).0;
            && |st.orders| <= |r.orders|
            && (forall i :: 0 <= i < |st.orders| ==> r.orders[i] == st.orders[i])
            && (forall i :: |st.orders| <= i < |r.orders| ==> currentUser.Some? && r.orders[i].owner == currentUser.value.id)
  {
    var r := CreateOrder(st, currentUser, f, saved).0;
    if currentUser.Some? {
      assert forall i :: 0 <= i < |st.orders| ==> r.orders[i] == r.orders[..|st.orders|][i];
    }
  }

  /** The form is accepted exactly when every trimmed text field is non-empty
      and the trimmed total parses to a value of at least 0; that value is
      the one saved. */
  lemma AcceptedIff(form: OrderForm, parse: string -> Option<real>)
    ensures CheckForm(form, parse).Accepted? <==>
              && Trim(form.orderNumber) != [] && Trim(form.buyerName) != []
              && Trim(form.address) != [] && Trim(form.phone) != [] && Trim(form.total) != []
              && parse(Trim(form.total)).Some? && parse(Trim(form.total)).value >= 0.0
  {
  }

  /** A total of 0 passes the form: with no text field blank, a total whose
      trimmed text parses to 0 is saved as 0, although `isValidOrderTotal`
      rejects it (`Validator.ZeroTotalIsInvalid`). */
  lemma {:induction false} ZeroTotalAccepted(form: OrderForm, parse: string -> Option<real>)
    requires Filled(form)
    requires parse(Trim(form.total)) == Some(0.0)
    ensures CheckForm(form, parse) ==
            Accepted(OrderFields(Trim(form.orderNumber), form.dueDate, Trim(form.buyerName),
                                 Trim(form.address), Trim(form.phone), 0.0))
  {
    FilledFieldsSurviveTrim(form);
  }

  /** A text field that is not blank is still non-empty after trimming. */
  lemma {:induction false} FilledFieldsSurviveTrim(form: OrderForm)
    requires Filled(form)
    ensures Trim(form.orderNumber) != [] && Trim(form.buyerName) != [] && Trim(form.address) != []
    ensures Trim(form.phone) != [] && Trim(form.total) != []
  {
    TrimEmptyIffAllWhitespace(form.orderNumber);
    TrimEmptyIffAllWhitespace(form.buyerName);
    TrimEmptyIffAllWhitespace(form.address);
    TrimEmptyIffAllWhitespace(form.phone);
    TrimEmptyIffAllWhitespace(form.total);
  }

  /** The fields the form accepts satisfy the validator's non-emptiness
      rules for order number, customer name and address. */
  lemma AcceptedFieldsPassValidator(form: OrderForm, parse: string -> Option<real>)
    ensures CheckForm(form, parse).Accepted? ==>
              && Validator.IsValidOrderNumber(CheckForm(form, parse).fields.orderNumber)
              && Validator.IsValidCustomerName(CheckForm(form, parse).fields.buyerName)
              && Validator.IsValidAddress(CheckForm(form, parse).fields.address)
  {
  }

  /** The converse fails: an order number of blanks satisfies the
      validator, which does not trim, yet the form rejects it as empty. */
  lemma {:induction false} BlankOrderNumberPassesValidator(form: OrderForm, parse: string -> Option<real>)
    ensures |form.orderNumber| > 0 && AllWhitespace(form.orderNumber) ==>
              Validator.IsValidOrderNumber(form.orderNumber) && CheckForm(form, parse) == Rejected(OrderNumberEmpty)
  {
    TrimEmptyIffAllWhitespace(form.orderNumber);
  }

  /** With no text field blank, every total the validator accepts passes the
      form, and the form accepts exactly one total more: one parsing to 0. */
  lemma {:induction false} TotalCheckAgainstValidator(form: OrderForm, parse: string -> Option<real>)
    requires Filled(form)
    ensures Validator.IsValidOrderTotal(Trim(form.total), parse) ==> CheckForm(form, parse).Accepted?
    ensures CheckForm(form, parse).Accepted? && !Validator.IsValidOrderTotal(Trim(form.total), parse)
            <==> parse(Trim(form.total)) == Some(0.0)
  {
    FilledFieldsSurviveTrim(form);
    AcceptedIff(form, parse);
  }

  /** The phone field is only checked for being non-blank: replacing a filled-in phone
      by any other filled-in text, whether or not it matches the validator's
      phone pattern, changes nothing but the phone that is saved. */
  lemma PhoneFormatNotChecked(form: OrderForm, parse: string -> Option<real>, phone: string)
    requires Trim(form.phone) != [] && Trim(phone) != []
    ensures CheckForm(form.(phone := phone), parse).Accepted? == CheckForm(form, parse).Accepted?
    ensures CheckForm(form, parse).Accepted? ==>
              CheckForm(form.(phone := phone), parse).fields
              == CheckForm(form, parse).fields.(phone := Trim(phone))
  {
  }
}
