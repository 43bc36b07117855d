/** The invoice status choices of the settings module. */
module Settings {

  /** `INVOICE_STATUS_CHOICES`: (stored value, display label) pairs. */
  const InvoiceStatusChoices: seq<(string, string)> := [("pending", "Pending"), ("paid", "Paid")]

  /** The stored values of the status choices. */
  function StatusValues(): (vs: set<string>)
    ensures vs == {"pending", "paid"}
  {
    var vs := set c | c in InvoiceStatusChoices :: c.0;
    assert InvoiceStatusChoices[0] in InvoiceStatusChoices && InvoiceStatusChoices[1] in InvoiceStatusChoices;
    vs
  }
}

/** The `Customer` and `Invoice` records: field constraints, defaults, the
    string forms and the default listing order. */
module Models {
  import opened Wrappers
  import Text
  import Settings

  // ---------------------------------------------------------------------
  // Field constants
  // ---------------------------------------------------------------------

  const NameMaxLength: nat := 128
  const EmailMaxLength: nat := 128
  const StatusMaxLength: nat := 32
  const AmountMaxDigits: nat := 11
  const AmountDecimalPlaces: nat := 2
  const DefaultStatus: string := "pending"

  /** A naive date-time, ordered lexicographically. */
  datatype DateTime = DateTime(year: int, month: int, day: int, second: int)

  predicate ValidDateTime(d: DateTime)
  {
    1 <= d.year <= 9999 && 1 <= d.month <= 12 && 1 <= d.day <= 31 && 0 <= d.second < 86400
  }

  /** `a <= b` in time. */
  predicate AtOrBefore(a: DateTime, b: DateTime)
  {
    a.year < b.year
    || (a.year == b.year && a.month < b.month)
    || (a.year == b.year && a.month == b.month && a.day < b.day)
    || (a.year == b.year && a.month == b.month && a.day == b.day && a.second <= b.second)
  }

  type UserId = nat

  /** A `Customer` row: optional owning user, name, email, optional image. */
  datatype Customer = Customer(user: Option<UserId>, name: string, email: string, image: Option<string>)

  /** An `Invoice` row. The customer is a plain (non-optional) field: the
      foreign key is not nullable. */
  datatype Invoice = Invoice(customer: Customer, amount: int, date: DateTime, status: string)

  // ---------------------------------------------------------------------
  // Field constraints
  // ---------------------------------------------------------------------

  predicate ValidCustomer(c: Customer)
  {
    |c.name| <= NameMaxLength && |c.email| <= EmailMaxLength
  }

  predicate ValidStatus(s: string)
  {
    s in Settings.StatusValues() && |s| <= StatusMaxLength
  }

  /** The amount, held in cents, fits a decimal field of 11 digits with 2
      fraction digits: its numeral has at most 11 digits. */
  predicate AmountFits(cents: int)
  {
    |Text.Decimal(if cents < 0 then -cents else cents)| <= AmountMaxDigits
  }

  predicate ValidInvoice(inv: Invoice)
  {
    ValidCustomer(inv.customer) && AmountFits(inv.amount)
    && ValidDateTime(inv.date) && ValidStatus(inv.status)
  }

  lemma StatusChoicesAreTwo(s: string)
    ensures ValidStatus(s) <==> s == "pending" || s == "paid"
  {
  }

  /** Eleven digits with two after the point: at most 99,999,999,999 cents either way. */
  lemma AmountFitsRange(cents: int)
    ensures AmountFits(cents) <==> -99_999_999_999 <= cents <= 99_999_999_999
  {
    var m: nat := if cents < 0 then -cents else cents;
    Text.DecimalLengthBound(m, AmountMaxDigits);
    assert Text.Pow10(AmountMaxDigits) == 100_000_000_000 by {
      assert Text.Pow10(3) == 1000;
      assert Text.Pow10(6) == 1000 * Text.Pow10(3);
      assert Text.Pow10(9) == 1000 * Text.Pow10(6);
      assert Text.Pow10(11) == 100 * Text.Pow10(9);
    }
  }

  // ---------------------------------------------------------------------
  // Creation with defaults
  // ---------------------------------------------------------------------

  /** A new invoice with a customer, an amount and optionally a date and a
      status: the date defaults to the current time `now`, the status to
      "pending". */
  function NewInvoice(customer: Customer, amount: int, date: Option<DateTime>,
                      status: Option<string>, now: DateTime): (r: Invoice)
    ensures r.customer == customer && r.amount == amount
    ensures status.None? ==> r.status == DefaultStatus && ValidStatus(r.status)
    ensures status.Some? ==> r.status == status.value
    ensures date.None? ==> r.date == now
    ensures date.Some? ==> r.date == date.value
  {
    Invoice(customer, amount, date.GetOr(now), status.GetOr(DefaultStatus))
  }

  lemma NewInvoiceValid(customer: Customer, amount: int, date: Option<DateTime>,
                        status: Option<string>, now: DateTime)
    requires ValidCustomer(customer) && AmountFits(amount) && ValidDateTime(now)
    requires date.Some? ==> ValidDateTime(date.value)
    requires status.Some? ==> ValidStatus(status.value)
    ensures ValidInvoice(NewInvoice(customer, amount, date, status, now))
  {
  }

  // ---------------------------------------------------------------------
  // String forms
  // ---------------------------------------------------------------------

  /** `str(Decimal)` of an amount with two decimal places, e.g. "-12.05". */
  function AmountString(cents: int): string
  {
    if cents < 0 then "-" + MagnitudeString(-cents) else MagnitudeString(cents)
  }

  /** The unsigned numeral "<whole>.<two digits>" of `m` hundredths. */
  function MagnitudeString(m: nat): string
  {
    Text.Decimal(m / 100) + "." + Text.TwoDigits(m % 100)
  }

  /** Reads back an unsigned amount "<digits>.<two digits>". */
  function ParseUnsignedAmount(body: string): Option<nat>
  {
    if |body| < 4 || body[|body| - 3] != '.' then None
    else
      var whole := body[..|body| - 3];
      var frac := body[|body| - 2..];
      if !Text.AllDigits(whole) || !Text.AllDigits(frac) then None
      else Some(Text.ParseDecimal(whole) * 100 + Text.ParseDecimal(frac))
  }

  /** Reads back an amount written with two decimal places. */
  function ParseAmount(s: string): Option<int>
  {
    if |s| > 0 && s[0] == '-' then
      match ParseUnsignedAmount(s[1..])
      case None => None
      case Some(v) => Some(-(v as int))
    else
      match ParseUnsignedAmount(s)
      case None => None
      case Some(v) => Some(v as int)
  }

  /** The pieces of an unsigned amount numeral "<digits>.<two digits>". */
  lemma UnsignedAmountParts(d: string, t: string)
    requires |d| >= 1 && Text.AllDigits(d) && |t| == 2 && Text.AllDigits(t)
    ensures ParseUnsignedAmount(d + "." + t) == Some(Text.ParseDecimal(d) * 100 + Text.ParseDecimal(t))
    ensures (d + "." + t)[0] != '-' && ' ' !in d + "." + t
  {
    var body := d + "." + t;
    assert body[..|body| - 3] == d;
    assert body[|body| - 2..] == t;
    assert body[0] == d[0];
    forall i | 0 <= i < |body| ensures body[i] != ' ' {
      if i < |d| { assert body[i] == d[i]; }
      else if i > |d| { assert body[i] == t[i - |d| - 1]; }
    }
  }

  lemma MagnitudeStringRoundTrip(m: nat)
    ensures ParseUnsignedAmount(MagnitudeString(m)) == Some(m)
    ensures MagnitudeString(m)[0] != '-' && ' ' !in MagnitudeString(m)
  {
    UnsignedAmountParts(Text.Decimal(m / 100), Text.TwoDigits(m % 100));
    Text.ParseDecimalOfDecimal(m / 100);
  }

  /** A leading '-' negates the numeral that follows it. */
  lemma ParseSigned(body: string, m: nat)
    requires ParseUnsignedAmount(body) == Some(m) && ' ' !in body
    ensures ParseAmount("-" + body) == Some(-(m as int))
    ensures ' ' !in "-" + body
  {
    var s := "-" + body;
    assert s[1..] == body;
    assert s == ['-'] + body;
  }

  /** Reading back the string form of an amount gives the amount. */
  lemma AmountStringRoundTrip(cents: int)
    ensures ParseAmount(AmountString(cents)) == Some(cents)
    ensures ' ' !in AmountString(cents)
  {
    if cents < 0 {
      MagnitudeStringRoundTrip(-cents);
      ParseSigned(MagnitudeString(-cents), -cents);
    } else {
      MagnitudeStringRoundTrip(cents);
    }
  }

  /** `Customer.__str__`: the name. */
  function CustomerString(c: Customer): string
  {
    c.name
  }

  /** `Invoice.__str__`: "<status> | <amount> <customer>". */
  function InvoiceString(inv: Invoice): string
  {
    inv.status + " | " + AmountString(inv.amount) + " " + CustomerString(inv.customer)
  }

  /** Reads back the status, amount and customer name of an invoice's string form. */
  function ParseInvoiceString(s: string): Option<(string, int, string)>
  {
    var i := Text.IndexOf(s, ' ');
    if i < 0 || |s| < i + 3 || s[i..i + 3] != " | " then None
    else
      var rest := s[i + 3..];
      var j := Text.IndexOf(rest, ' ');
      if j < 0 then None
      else
        match ParseAmount(rest[..j])
        case None => None
        case Some(a) => Some((s[..i], a, rest[j + 1..]))
  }

  /** The first space of "<w> | <rest>" is the one after `w`. */
  lemma StatusSeparator(w: string, rest: string)
    requires ' ' !in w
    ensures Text.IndexOf(w + " | " + rest, ' ') == |w|
    ensures (w + " | " + rest)[|w|..|w| + 3] == " | "
    ensures (w + " | " + rest)[|w| + 3..] == rest
    ensures (w + " | " + rest)[..|w|] == w
  {
    var s := w + " | " + rest;
    assert s == w + [' '] + ("| " + rest);
    Text.IndexOfAfterWord(w, ' ', "| " + rest);
  }

  /** The first space of "<a> <name>" is the one after `a`. */
  lemma AmountSeparator(a: string, name: string)
    requires ' ' !in a
    ensures Text.IndexOf(a + " " + name, ' ') == |a|
    ensures (a + " " + name)[..|a|] == a
    ensures (a + " " + name)[|a| + 1..] == name
  {
    Text.IndexOfAfterWord(a, ' ', name);
  }

  /** Parsing a string whose first space is the one of " | " after `w` and
      whose remainder's first space is the one after `a`. */
  lemma ParseAtSeparators(s: string, w: string, rest: string, a: string, name: string)
    requires Text.IndexOf(s, ' ') == |w| && |w| + 3 <= |s| && s[|w|..|w| + 3] == " | "
    requires s[..|w|] == w && s[|w| + 3..] == rest
    requires Text.IndexOf(rest, ' ') == |a| && |a| < |rest| && rest[..|a|] == a && rest[|a| + 1..] == name
    ensures ParseInvoiceString(s)
      == match ParseAmount(a) case None => None case Some(x) => Some((w, x, name))
  {
  }

  /** Parsing "<w> | <a> <name>" splits at the first two spaces. */
  lemma ParseInvoiceStringParts(w: string, a: string, name: string)
    requires ' ' !in w && ' ' !in a
    ensures ParseInvoiceString(w + " | " + a + " " + name)
      == match ParseAmount(a) case None => None case Some(x) => Some((w, x, name))
  {
    var rest := a + " " + name;
    var s := w + " | " + rest;
    assert w + " | " + a + " " + name == s;
    assert ParseInvoiceString(s)
      == match ParseAmount(a) case None => None case Some(x) => Some((w, x, name)) by {
      StatusSeparator(w, rest);
      AmountSeparator(a, name);
      ParseAtSeparators(s, w, rest, a, name);
    }
  }

  /** The string form determines status, amount and customer name whenever
      the status has no space, as every status choice does. */
  lemma InvoiceStringRoundTrip(inv: Invoice)
    requires ' ' !in inv.status
    ensures ParseInvoiceString(InvoiceString(inv)) == Some((inv.status, inv.amount, inv.customer.name))
  {
    AmountStringRoundTrip(inv.amount);
    ParseInvoiceStringParts(inv.status, AmountString(inv.amount), inv.customer.name);
  }

  // ---------------------------------------------------------------------
  // Default listing order: newest date first
  // ---------------------------------------------------------------------

  predicate NewestFirst(s: seq<Invoice>)
  {
    forall i :: 0 <= i < |s| - 1 ==> AtOrBefore(s[i + 1].date, s[i].date)
  }

  function InsertByDate(x: Invoice, s: seq<Invoice>): (r: seq<Invoice>)
    requires NewestFirst(s)
    ensures NewestFirst(r)
    ensures multiset(r) == multiset(s) + multiset{x}
    ensures |r| == |s| + 1 && (r[0] == x || (s != [] && r[0] == s[0]))
  {
    if s == [] || AtOrBefore(s[0].date, x.date) then [x] + s
    else
      assert s == [s[0]] + s[1..];
      [s[0]] + InsertByDate(x, s[1..])
  }

  /** The invoices in their default listing order (ordering by `-date`):
      a permutation of the input, newest first. */
  function ListingOrder(invoices: seq<Invoice>): (r: seq<Invoice>)
    ensures NewestFirst(r)
    ensures multiset(r) == multiset(invoices)
  {
    if invoices == [] then []
    else
      assert invoices == [invoices[0]] + invoices[1..];
      InsertByDate(invoices[0], ListingOrder(invoices[1..]))
  }
}
