/** Cleaning of the raw sales sheet: drop rows with a missing cell, drop cancelled
    invoices (any invoice number containing 'C'), attach the line revenue
    (TotalPrice = Price * Quantity), and drop missing cells once more.

    Money is in integer minor units (pence) and timestamps are integer minutes
    from a fixed epoch. */
module Cleaner {
  import opened Wrappers
  import opened Seqs

  /** One row of the sales sheet, with its eight columns; None is a missing cell. */
  datatype RawRow = RawRow(
    invoice: Option<string>,
    stockCode: Option<string>,
    description: Option<string>,
    quantity: Option<int>,
    invoiceDate: Option<int>,
    price: Option<int>,
    customer: Option<int>,
    country: Option<string>)

  /** A row after the revenue column has been added. */
  datatype PricedRow = PricedRow(row: RawRow, totalPrice: Option<int>)

  /** A cleaned transaction line: every cell present, revenue attached. */
  datatype Txn = Txn(
    invoice: string,
    stockCode: string,
    description: string,
    quantity: int,
    invoiceDate: int,
    price: int,
    customer: int,
    country: string,
    totalPrice: int)

  /** The character that marks a cancelled invoice. */
  const CANCEL_MARKER: char := 'C'

  /** No cell of the row is missing. */
  predicate Complete(r: RawRow)
  {
    && r.invoice.Some?
    && r.stockCode.Some?
    && r.description.Some?
    && r.quantity.Some?
    && r.invoiceDate.Some?
    && r.price.Some?
    && r.customer.Some?
    && r.country.Some?
  }

  /** The invoice number contains the marker anywhere (a substring test, not a prefix
      test); a missing invoice counts as not cancelled. */
  predicate Cancelled(r: RawRow)
  {
    r.invoice.Some? && CANCEL_MARKER in r.invoice.value
  }

  predicate PricedComplete(p: PricedRow)
  {
    Complete(p.row) && p.totalPrice.Some?
  }

  /** Row-wise dropping of incomplete rows (main.py:48). */
  function DropIncomplete(rows: seq<RawRow>): (r: seq<RawRow>)
    ensures forall x :: x in r <==> x in rows && Complete(x)
  {
    Filter(Complete, rows)
  }

  /** Row-wise dropping of cancelled invoices (main.py:59). */
  function DropCancelled(rows: seq<RawRow>): (r: seq<RawRow>)
    ensures forall x :: x in r <==> x in rows && !Cancelled(x)
  {
    Filter((x: RawRow) => !Cancelled(x), rows)
  }

  /** Price times quantity; missing when either factor is missing. */
  function LineRevenue(r: RawRow): (v: Option<int>)
    ensures v.Some? <==> r.price.Some? && r.quantity.Some?
    ensures v.Some? ==> v.value == r.price.value * r.quantity.value
  {
    if r.price.Some? && r.quantity.Some? then Some(r.price.value * r.quantity.value) else None
  }

  /** Adds the TotalPrice column (main.py:62). */
  function AttachTotalPrice(rows: seq<RawRow>): (r: seq<PricedRow>)
    ensures |r| == |rows|
    ensures forall i :: 0 <= i < |rows| ==> r[i].row == rows[i]
    ensures forall i :: 0 <= i < |rows| ==>
      (r[i].totalPrice.Some? <==> rows[i].price.Some? && rows[i].quantity.Some?)
    ensures forall i :: 0 <= i < |rows| ==> r[i].totalPrice == LineRevenue(rows[i])
  {
    if rows == [] then [] else [PricedRow(rows[0], LineRevenue(rows[0]))] + AttachTotalPrice(rows[1..])
  }

  /** The second dropping of incomplete rows (main.py:63). */
  function DropIncompletePriced(rows: seq<PricedRow>): (r: seq<PricedRow>)
    ensures forall p :: p in r <==> p in rows && PricedComplete(p)
  {
    Filter(PricedComplete, rows)
  }

  function ToTxn(p: PricedRow): Txn
    requires PricedComplete(p)
  {
    var r := p.row;
    Txn(r.invoice.value, r.stockCode.value, r.description.value, r.quantity.value,
        r.invoiceDate.value, r.price.value, r.customer.value, r.country.value, p.totalPrice.value)
  }

  /** Reads the cells of complete rows as plain values. */
  function Settle(rows: seq<PricedRow>): (r: seq<Txn>)
    requires forall p :: p in rows ==> PricedComplete(p)
    ensures |r| == |rows|
    ensures forall i :: 0 <= i < |rows| ==> r[i] == ToTxn(rows[i])
  {
    if rows == [] then [] else [ToTxn(rows[0])] + Settle(rows[1..])
  }

  lemma PricedFacts(rows: seq<RawRow>)
    requires forall x :: x in rows ==> !Cancelled(x)
    ensures forall p :: p in AttachTotalPrice(rows) ==> !Cancelled(p.row) && p.totalPrice == LineRevenue(p.row)
  {
    var priced := AttachTotalPrice(rows);
    forall p | p in priced ensures !Cancelled(p.row) && p.totalPrice == LineRevenue(p.row) {
      var i :| 0 <= i < |priced| && priced[i] == p;
      assert rows[i] in rows;
    }
  }

  lemma SettleFacts(kept: seq<PricedRow>)
    requires forall p :: p in kept ==> PricedComplete(p)
    requires forall p :: p in kept ==> !Cancelled(p.row) && p.totalPrice == LineRevenue(p.row)
    ensures forall t :: t in Settle(kept) ==> CANCEL_MARKER !in t.invoice
    ensures forall t :: t in Settle(kept) ==> t.totalPrice == t.price * t.quantity
  {
    var r := Settle(kept);
    forall t | t in r ensures CANCEL_MARKER !in t.invoice && t.totalPrice == t.price * t.quantity {
      var i :| 0 <= i < |r| && r[i] == t;
      assert kept[i] in kept;
    }
  }

  /** The whole cleaning stage (main.py:48-63): no survivor is cancelled, and every
      survivor's revenue is its price times its quantity. */
  function Clean(raw: seq<RawRow>): (r: seq<Txn>)
    ensures |r| <= |raw|
    ensures forall t :: t in r ==> CANCEL_MARKER !in t.invoice
    ensures forall t :: t in r ==> t.totalPrice == t.price * t.quantity
  {
    var priced := AttachTotalPrice(DropCancelled(DropIncomplete(raw)));
    var kept := DropIncompletePriced(priced);
    PricedFacts(DropCancelled(DropIncomplete(raw)));
    SettleFacts(kept);
    Settle(kept)
  }

  /** What cleaning makes of a single row, stated directly: the row survives exactly
      when no cell is missing and its invoice carries no cancellation marker. */
  function Admit(x: RawRow): (t: Option<Txn>)
    ensures t.Some? <==> Complete(x) && CANCEL_MARKER !in x.invoice.value
    ensures t.Some? ==> t.value.invoice == x.invoice.value && t.value.stockCode == x.stockCode.value
    ensures t.Some? ==> t.value.description == x.description.value && t.value.quantity == x.quantity.value
    ensures t.Some? ==> t.value.invoiceDate == x.invoiceDate.value && t.value.price == x.price.value
    ensures t.Some? ==> t.value.customer == x.customer.value && t.value.country == x.country.value
    ensures t.Some? ==> t.value.totalPrice == x.price.value * x.quantity.value
  {
    if Complete(x) && !Cancelled(x) then Some(ToTxn(PricedRow(x, LineRevenue(x)))) else None
  }

  /** The row-by-row reference for cleaning. */
  function CleanRowwise(raw: seq<RawRow>): seq<Txn>
  {
    if raw == [] then []
    else (match Admit(raw[0]) case Some(t) => [t] case None => []) + CleanRowwise(raw[1..])
  }

  lemma {:induction false} AttachTotalPriceAppend(a: seq<RawRow>, b: seq<RawRow>)
    ensures AttachTotalPrice(a + b) == AttachTotalPrice(a) + AttachTotalPrice(b)
  {
    if a != [] {
      assert (a + b)[0] == a[0];
      assert (a + b)[1..] == a[1..] + b;
      AttachTotalPriceAppend(a[1..], b);
    } else {
      assert a + b == b;
    }
  }

  lemma {:induction false} SettleAppend(a: seq<PricedRow>, b: seq<PricedRow>)
    requires forall p :: p in a + b ==> PricedComplete(p)
    ensures Settle(a + b) == Settle(a) + Settle(b)
  {
  }

  /** Cleaning is row-wise: it distributes over concatenation of sheets. */
  lemma CleanAppend(a: seq<RawRow>, b: seq<RawRow>)
    ensures Clean(a + b) == Clean(a) + Clean(b)
  {
    var P := (x: RawRow) => !Cancelled(x);
    FilterAppend(Complete, a, b);
    FilterAppend(P, DropIncomplete(a), DropIncomplete(b));
    AttachTotalPriceAppend(DropCancelled(DropIncomplete(a)), DropCancelled(DropIncomplete(b)));
    var pa := AttachTotalPrice(DropCancelled(DropIncomplete(a)));
    var pb := AttachTotalPrice(DropCancelled(DropIncomplete(b)));
    FilterAppend(PricedComplete, pa, pb);
    SettleAppend(DropIncompletePriced(pa), DropIncompletePriced(pb));
  }

  /** The staged cleaning equals the row-by-row rule. */
  lemma {:induction false} CleanIsRowwise(raw: seq<RawRow>)
    ensures Clean(raw) == CleanRowwise(raw)
  {
    if raw != [] {
      assert raw == [raw[0]] + raw[1..];
      CleanAppend([raw[0]], raw[1..]);
      CleanIsRowwise(raw[1..]);
    }
  }

  lemma {:induction false} RowwiseMembers(raw: seq<RawRow>)
    ensures forall t :: t in CleanRowwise(raw) <==> exists x :: x in raw && Admit(x) == Some(t)
  {
    if raw != [] {
      RowwiseMembers(raw[1..]);
      assert raw == [raw[0]] + raw[1..];
      forall t ensures t in CleanRowwise(raw) <==> exists x :: x in raw && Admit(x) == Some(t) {
        if t in CleanRowwise(raw[1..]) {
          var x :| x in raw[1..] && Admit(x) == Some(t);
          assert x in raw;
        }
      }
    }
  }

  /** A transaction line is in the cleaned table exactly when some sheet row admits it. */
  lemma CleanKeepsExactlyAdmitted(raw: seq<RawRow>)
    ensures forall t :: t in Clean(raw) <==> exists x :: x in raw && Admit(x) == Some(t)
  {
    CleanIsRowwise(raw);
    RowwiseMembers(raw);
  }

  /** After the first drop and the cancellation filter, the second drop removes nothing:
      a complete row always has both factors of its revenue. */
  lemma SecondDropIsNoOp(raw: seq<RawRow>)
    ensures var priced := AttachTotalPrice(DropCancelled(DropIncomplete(raw)));
            DropIncompletePriced(priced) == priced
  {
    var priced := AttachTotalPrice(DropCancelled(DropIncomplete(raw)));
    forall p | p in priced ensures PricedComplete(p) {
    }
    FilterAll(PricedComplete, priced);
  }

  /** The example sheet row with invoice "C12345" is excluded. */
  lemma CancelledExample()
    ensures Clean([RawRow(Some("C12345"), Some("85123A"), Some("HEART T-LIGHT HOLDER"),
                          Some(6), Some(0), Some(255), Some(17850), Some("United Kingdom"))]) == []
  {
    var x := RawRow(Some("C12345"), Some("85123A"), Some("HEART T-LIGHT HOLDER"),
                    Some(6), Some(0), Some(255), Some(17850), Some("United Kingdom"));
    assert "C12345"[0] == 'C';
    CleanIsRowwise([x]);
  }
}
