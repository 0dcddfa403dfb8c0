/**
 * The admin controller's orders export and its analytics summary. The CSV
 * export writes a fixed header and then one newline-terminated line per
 * order, its five fields joined by commas with no quoting or escaping.
 */
module Admin {
  import opened Wrappers
  import opened Text
  import opened Models
  import Catalogue

  // ---------------------------------------------------------------------
  // The CSV export

  const HeaderText := "Order ID,User Email,Total Amount,Status,Date"

  /** An order as the export query returns it: the row, its user's email if any, and its rendered creation date. */
  datatype ExportRow = ExportRow(order: Order, email: Option<string>, createdAt: string)

  /** `order.User?.email || 'N/A'` */
  function EmailCell(email: Option<string>): (s: string)
    ensures s == "N/A" <==> email.None? || email.value == "" || email.value == "N/A"
    ensures s != "" && (s != "N/A" ==> email == Some(s))
  {
    if email.None? || email.value == "" then "N/A" else email.value
  }

  /** The five fields of an order's line, in column order. */
  function Fields(r: ExportRow): (f: seq<string>)
    ensures |f| == 5
  {
    [IntToString(r.order.id), EmailCell(r.email), Catalogue.FormatPrice(r.order.totalAmount),
     StatusName(r.order.status), r.createdAt]
  }

  /** Five fields joined by commas. */
  function JoinFields(f: seq<string>): string
    requires |f| == 5
  {
    f[0] + "," + f[1] + "," + f[2] + "," + f[3] + "," + f[4]
  }

  /** An order's line without its newline. */
  function RowText(r: ExportRow): string {
    JoinFields(Fields(r))
  }

  /** The lines after the header, in query order. */
  function RowTexts(rows: seq<ExportRow>): (t: seq<string>)
    ensures |t| == |rows|
  {
    seq(|rows|, i requires 0 <= i < |rows| => RowText(rows[i]))
  }

  /** The whole export. */
  function Csv(rows: seq<ExportRow>): (csv: string)
    ensures HeaderText + "\n" <= csv
  {
    HeaderText + "\n" + Terminated(RowTexts(rows))
  }

  /** `exportOrdersToCSV`: the header, then one line appended per order. */
  method ExportOrdersToCsv(rows: seq<ExportRow>) returns (csv: string)
    ensures csv == Csv(rows)
  {
    csv := WriteLines(HeaderText + "\n", RowTexts(rows));
  }

  /** A printed price holds only digits, a point and a leading minus sign. */
  lemma PricePlain(cents: Cents, c: char)
    requires !IsDigit(c) && c != '-' && c != '.'
    ensures Free(Catalogue.FormatPrice(cents), c)
  {
    var m: nat := if cents < 0 then -cents else cents;
    var sign := if cents < 0 then "-" else "";
    var whole := NatToString(m / 100);
    var tail := "." + [DigitChar(m % 100 / 10), DigitChar(m % 100 % 10)];
    FreeConcat(sign, whole, c);
    FreeConcat(sign + whole, tail, c);
    assert Catalogue.FormatPrice(cents) == sign + whole + tail;
  }

  /** Numbers, prices and status names never contain a comma or a newline. */
  lemma NumericFieldsPlain(r: ExportRow, c: char)
    requires c == ',' || c == '\n'
    ensures Free(Fields(r)[0], c) && Free(Fields(r)[2], c) && Free(Fields(r)[3], c)
  {
    IntPlain(r.order.id, c);
    PricePlain(r.order.totalAmount, c);
    StatusPlain(r.order.status, c);
  }

  /** Status names are lower-case words. */
  lemma StatusPlain(st: OrderStatus, c: char)
    requires !('a' <= c <= 'z')
    ensures Free(StatusName(st), c)
  {
  }

  /** The line of a row whose email and date hold no comma or newline. */
  predicate Plain(r: ExportRow) {
    Free(EmailCell(r.email), ',') && Free(EmailCell(r.email), '\n') && Free(r.createdAt, ',') && Free(r.createdAt, '\n')
  }

  /** Five comma-free fields, joined, split back into themselves. */
  lemma JoinSplitsBack(f: seq<string>)
    requires |f| == 5 && forall i :: 0 <= i < 5 ==> Free(f[i], ',')
    ensures Split(JoinFields(f), ',') == f
  {
    var t3 := f[3] + "," + f[4];
    var t2 := f[2] + "," + t3;
    var t1 := f[1] + "," + t2;
    SplitFree(f[4], ',');
    SplitAfter(f[3], ',', f[4]);
    SplitAfter(f[2], ',', t3);
    SplitAfter(f[1], ',', t2);
    SplitAfter(f[0], ',', t1);
    assert JoinFields(f) == f[0] + "," + t1;
    assert f == [f[0], f[1], f[2], f[3], f[4]];
  }

  /** A plain row's line splits at its commas back into its five fields. */
  lemma RowSplitsBack(r: ExportRow)
    requires Plain(r)
    ensures Split(RowText(r), ',') == Fields(r)
  {
    NumericFieldsPlain(r, ',');
    JoinSplitsBack(Fields(r));
  }

  /** Five fields free of a character other than the comma join into text free of it. */
  lemma JoinFree(f: seq<string>, c: char)
    requires |f| == 5 && c != ',' && forall i :: 0 <= i < 5 ==> Free(f[i], c)
    ensures Free(JoinFields(f), c)
  {
    var comma := ",";
    FreeConcat(f[0], comma, c);
    FreeConcat(f[0] + comma, f[1], c);
    FreeConcat(f[0] + comma + f[1], comma, c);
    FreeConcat(f[0] + comma + f[1] + comma, f[2], c);
    FreeConcat(f[0] + comma + f[1] + comma + f[2], comma, c);
    FreeConcat(f[0] + comma + f[1] + comma + f[2] + comma, f[3], c);
    FreeConcat(f[0] + comma + f[1] + comma + f[2] + comma + f[3], comma, c);
    FreeConcat(f[0] + comma + f[1] + comma + f[2] + comma + f[3] + comma, f[4], c);
  }

  /** A plain row's line holds no newline. */
  lemma RowTextSingleLine(r: ExportRow)
    requires Plain(r)
    ensures Free(RowText(r), '\n')
  {
    NumericFieldsPlain(r, '\n');
    JoinFree(Fields(r), '\n');
  }

  lemma HeaderSingleLine()
    ensures Free(HeaderText, '\n')
  {
  }

  /** The export splits at its newlines into the header, the order lines and a final empty string. */
  lemma CsvLines(rows: seq<ExportRow>)
    requires forall i :: 0 <= i < |rows| ==> Plain(rows[i])
    ensures Split(Csv(rows), '\n') == [HeaderText] + RowTexts(rows) + [""]
  {
    RowTextsSingleLine(rows);
    HeaderThenLines(RowTexts(rows));
  }

  /** Newline-free lines after the header split back into the header, the lines and a final empty string. */
  lemma HeaderThenLines(t: seq<string>)
    requires forall i :: 0 <= i < |t| ==> Free(t[i], '\n')
    ensures Split(HeaderText + "\n" + Terminated(t), '\n') == [HeaderText] + t + [""]
  {
    HeaderSingleLine();
    HeadedLines(HeaderText, t);
  }

  /** The order lines of plain rows hold no newline. */
  lemma RowTextsSingleLine(rows: seq<ExportRow>)
    requires forall i :: 0 <= i < |rows| ==> Plain(rows[i])
    ensures forall i :: 0 <= i < |rows| ==> Free(RowTexts(rows)[i], '\n')
  {
    forall i | 0 <= i < |rows|
      ensures Free(RowTexts(rows)[i], '\n')
    {
      RowTextSingleLine(rows[i]);
    }
  }

  /**
   * When no email or date holds a comma or newline, the export reads back:
   * line 0 is the header, line i + 1 splits into order i's five fields, and
   * the text ends with a newline, so there are 1 + n lines.
   */
  lemma CsvReadsBack(rows: seq<ExportRow>)
    requires forall i :: 0 <= i < |rows| ==> Plain(rows[i])
    ensures var lines := Split(Csv(rows), '\n');
      && |lines| == |rows| + 2 && lines[0] == HeaderText && lines[|rows| + 1] == ""
      && forall i :: 0 <= i < |rows| ==> Split(lines[i + 1], ',') == Fields(rows[i])
  {
    CsvLines(rows);
    var lines := Split(Csv(rows), '\n');
    forall i | 0 <= i < |rows|
      ensures Split(lines[i + 1], ',') == Fields(rows[i])
    {
      assert lines[i + 1] == RowTexts(rows)[i];
      RowSplitsBack(rows[i]);
    }
  }

  /**
   * Nothing is quoted: an email `a,b` puts `a` and `b` in two columns, so the
   * line has six fields and the later ones move one column to the right.
   */
  lemma CommaInEmailShiftsColumns(r: ExportRow, a: string, b: string)
    requires r.email == Some(a + "," + b) && Free(a, ',') && Free(b, ',') && Free(r.createdAt, ',')
    ensures var f := Fields(r);
      Split(RowText(r), ',') == [f[0], a, b, f[2], f[3], f[4]]
  {
    var f := Fields(r);
    NumericFieldsPlain(r, ',');
    SplitCommaInSecond(f, a, b);
  }

  lemma SplitCommaInSecond(f: seq<string>, a: string, b: string)
    requires |f| == 5 && f[1] == a + "," + b
    requires Free(f[0], ',') && Free(a, ',') && Free(b, ',') && Free(f[2], ',') && Free(f[3], ',') && Free(f[4], ',')
    ensures Split(JoinFields(f), ',') == [f[0], a, b, f[2], f[3], f[4]]
  {
    SplitFree(f[4], ',');
    var t3 := f[3] + "," + f[4];
    var t2 := f[2] + "," + t3;
    var tb := b + "," + t2;
    var ta := a + "," + tb;
    SplitAfter(f[3], ',', f[4]);
    SplitAfter(f[2], ',', t3);
    SplitAfter(b, ',', t2);
    SplitAfter(a, ',', tb);
    SplitAfter(f[0], ',', ta);
    assert JoinFields(f) == f[0] + [','] + ta;
  }

  // ---------------------------------------------------------------------
  // Analytics

  datatype Analytics = Analytics(totalUsers: nat, totalOrders: nat, totalRevenue: int, totalProducts: nat)

  /** The accounts counted as users: those whose role is exactly `user`. */
  function Customers(users: map<int, User>): (ids: set<int>)
    ensures ids <= users.Keys
    ensures forall id :: id in ids <==> id in users && users[id].role == "user"
  {
    set id | id in users && users[id].role == "user"
  }

  /** `getAnalytics`: customers, orders and products counted; revenue is reported as 0. */
  function GetAnalytics(users: map<int, User>, orders: map<int, Order>, products: map<int, Product>): (a: Analytics)
    ensures a.totalUsers == |Customers(users)| <= |users|
    ensures a.totalOrders == |orders| && a.totalProducts == |products|
    ensures a.totalRevenue == 0
  {
    SubsetSize(Customers(users), users.Keys);
    Analytics(|Customers(users)|, |orders|, 0, |products|)
  }

  lemma SubsetSize(a: set<int>, b: set<int>)
    requires a <= b
    ensures |a| <= |b|
  {
    assert b == a + (b - a);
  }

  /** A new admin account leaves the user count as it was; a new customer adds one. */
  lemma AdminsNotCounted(users: map<int, User>, orders: map<int, Order>, products: map<int, Product>, u: User)
    requires u.id !in users
    ensures var before := GetAnalytics(users, orders, products).totalUsers;
      var after := GetAnalytics(users[u.id := u], orders, products).totalUsers;
      after == if u.role == "user" then before + 1 else before
  {
    var c := Customers(users);
    if u.role == "user" {
      assert Customers(users[u.id := u]) == c + {u.id};
    } else {
      assert Customers(users[u.id := u]) == c;
    }
  }
}
