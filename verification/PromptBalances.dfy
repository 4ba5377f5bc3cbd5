// The BALANCE TABLE section and the whole system prompt.
module PromptBalances {
  import opened Texts
  import opened Decimals
  import opened PassageText
  import opened PassageLines
  import opened Prompt

  // ------------------------------------------------------------------
  // Amounts
  // ------------------------------------------------------------------

  // A comma before every third digit from the right.
  function Grouped(digits: string): string {
    if |digits| <= 3 then digits else Grouped(digits[..|digits| - 3]) + "," + digits[|digits| - 3..]
  }

  function Number(cents: nat): string {
    Grouped(Text(cents / 100)) + "." + Padded(cents % 100, 2)
  }

  function FormatAmount(cents: int, currency: string): string {
    var sign := if cents < 0 then "-" else "";
    var number := Number(if cents < 0 then -cents else cents);
    if currency == "USD" then sign + "$" + number else sign + number + " " + currency
  }

  function Ungrouped(s: string): string {
    if s == "" then "" else Bare(s[0]) + Ungrouped(s[1..])
  }

  function Bare(c: char): string {
    if c == ',' then "" else [c]
  }

  lemma {:induction false} UngroupedPlus(a: string, b: string)
    ensures Ungrouped(a + b) == Ungrouped(a) + Ungrouped(b)
  {
    hide Bare;
    if a == "" {
      assert a + b == b;
    } else {
      UngroupedPlus(a[1..], b);
      assert (a + b)[1..] == a[1..] + b && (a + b)[0] == a[0];
      Associate(Bare(a[0]), Ungrouped(a[1..]), Ungrouped(b));
    }
  }

  lemma {:induction false} UngroupedDigits(s: string)
    requires AllDigits(s)
    ensures Ungrouped(s) == s
  {
    if s != "" {
      UngroupedDigits(s[1..]);
      assert s == [s[0]] + s[1..];
    }
  }

  // Dropping the commas gives the digits back.
  lemma {:induction false} GroupedReadsBack(digits: string)
    requires AllDigits(digits)
    ensures Ungrouped(Grouped(digits)) == digits
  {
    if |digits| <= 3 {
      UngroupedDigits(digits);
    } else {
      var front, back := digits[..|digits| - 3], digits[|digits| - 3..];
      GroupedReadsBack(front);
      UngroupedDigits(back);
      assert Grouped(digits) == Grouped(front) + "," + back;
      assert Ungrouped(",") == "";
      assert front + back == digits;
      hide Grouped, Ungrouped;
      UngroupedPlus(Grouped(front) + ",", back);
      UngroupedPlus(Grouped(front), ",");
    }
  }

  function FromRight(s: string, k: nat): char
    requires k < |s|
  {
    s[|s| - 1 - k]
  }

  // Counted from the right, every fourth place is a comma and no other is.
  lemma {:induction false} CommasAre(digits: string)
    requires AllDigits(digits)
    ensures forall k: nat :: k < |Grouped(digits)| ==> (FromRight(Grouped(digits), k) == ',' <==> k % 4 == 3)
  {
    if |digits| <= 3 {
      assert forall k: nat :: k < |digits| ==> IsDigit(FromRight(digits, k));
    } else {
      var front, back := digits[..|digits| - 3], digits[|digits| - 3..];
      CommasAre(front);
      assert Grouped(digits) == Grouped(front) + "," + back;
      hide Grouped;
      GroupBehind(Grouped(front), back);
    }
  }

  lemma GroupBehind(g: string, back: string)
    requires |back| == 3 && AllDigits(back)
    requires forall k: nat :: k < |g| ==> (FromRight(g, k) == ',' <==> k % 4 == 3)
    ensures var s := g + "," + back; forall k: nat :: k < |s| ==> (FromRight(s, k) == ',' <==> k % 4 == 3)
  {
    var s := g + "," + back;
    forall k: nat | k < |s| ensures FromRight(s, k) == ',' <==> k % 4 == 3 {
      if k >= 4 {
        assert FromRight(s, k) == FromRight(g, k - 4);
      } else if k < 3 {
        assert FromRight(s, k) == back[2 - k] && IsDigit(back[2 - k]);
      } else {
        assert FromRight(s, k) == ',';
      }
    }
  }

  predicate Numeric(s: string) {
    forall i :: 0 <= i < |s| ==> IsDigit(s[i]) || s[i] == ',' || s[i] == '.'
  }

  lemma {:induction false} GroupedIsNumeric(digits: string)
    requires AllDigits(digits)
    ensures Numeric(Grouped(digits)) && (digits != "" ==> Grouped(digits) != "" && IsDigit(Grouped(digits)[0]))
  {
    if |digits| > 3 { GroupedIsNumeric(digits[..|digits| - 3]); }
  }

  lemma NumberIsNumeric(cents: nat)
    ensures Numeric(Number(cents)) && Number(cents) != "" && IsDigit(Number(cents)[0])
  {
    GroupedIsNumeric(Text(cents / 100));
    hide Text, Padded, Grouped;
  }

  // The last three characters are the point and the cents.
  lemma NumberSplits(cents: nat)
    ensures |Number(cents)| >= 3 && Number(cents)[|Number(cents)| - 2..] == Padded(cents % 100, 2)
    ensures Number(cents)[..|Number(cents)| - 3] == Grouped(Text(cents / 100))
  {
    hide Text, Padded, Grouped;
    var s := Number(cents);
    assert |Padded(cents % 100, 2)| == 2;
    assert s == Grouped(Text(cents / 100)) + "." + Padded(cents % 100, 2);
  }

  lemma NumberIsInjective(a: nat, b: nat)
    requires Number(a) == Number(b)
    ensures a == b
  {
    NumberSplits(a);
    NumberSplits(b);
    GroupedReadsBack(Text(a / 100));
    GroupedReadsBack(Text(b / 100));
    assert Pow10(2) == 100 by { assert Pow10(1) == 10; }
    PaddedValue(a % 100, 2);
    PaddedValue(b % 100, 2);
    hide Text, Padded, Grouped;
    assert a / 100 == b / 100 && a % 100 == b % 100;
  }

  // A printed amount has one reading: no two amounts in a currency look alike.
  lemma AmountIsInjective(a: int, b: int, currency: string)
    requires FormatAmount(a, currency) == FormatAmount(b, currency)
    ensures a == b
  {
    var x, y := if a < 0 then -a else a, if b < 0 then -b else b;
    NumberIsNumeric(x);
    NumberIsNumeric(y);
    hide Number, Numeric;
    assert (FormatAmount(a, currency)[0] == '-') == (a < 0);
    assert (FormatAmount(b, currency)[0] == '-') == (b < 0);
    var before := (if a < 0 then 1 else 0) + (if currency == "USD" then 1 else 0);
    var after := if currency == "USD" then 0 else 1 + |currency|;
    AmountHolds(a, currency, before, after);
    AmountHolds(b, currency, before, after);
    NumberIsInjective(x, y);
  }

  lemma AmountHolds(cents: int, currency: string, before: nat, after: nat)
    requires before == (if cents < 0 then 1 else 0) + (if currency == "USD" then 1 else 0)
    requires after == if currency == "USD" then 0 else 1 + |currency|
    ensures before + after <= |FormatAmount(cents, currency)|
    ensures FormatAmount(cents, currency)[before..|FormatAmount(cents, currency)| - after]
         == Number(if cents < 0 then -cents else cents)
  {
    hide Number;
    var sign := if cents < 0 then "-" else "";
    var number := Number(if cents < 0 then -cents else cents);
    if currency == "USD" {
      Between(sign + "$", number, "");
      assert sign + "$" + number + "" == sign + "$" + number;
    } else {
      Between(sign, number, " " + currency);
      assert sign + number + (" " + currency) == sign + number + " " + currency;
    }
  }

  lemma Between(a: string, b: string, c: string)
    ensures (a + b + c)[|a|..|a + b + c| - |c|] == b
  {
  }

  // The digits of a text, in order.
  function DigitsOf(s: string): (d: string)
    ensures AllDigits(d)
  {
    if s == "" then "" else (if IsDigit(s[0]) then [s[0]] else "") + DigitsOf(s[1..])
  }

  lemma {:induction false} DigitsPlus(a: string, b: string)
    ensures DigitsOf(a + b) == DigitsOf(a) + DigitsOf(b)
  {
    if a == "" {
      assert a + b == b;
    } else {
      DigitsPlus(a[1..], b);
      assert (a + b)[1..] == a[1..] + b && (a + b)[0] == a[0];
      hide DigitsOf, IsDigit;
      DigitsStep(a + b);
      DigitsStep(a);
      Associate(if IsDigit(a[0]) then [a[0]] else "", DigitsOf(a[1..]), DigitsOf(b));
    }
  }

  lemma DigitsStep(s: string)
    requires s != ""
    ensures DigitsOf(s) == (if IsDigit(s[0]) then [s[0]] else "") + DigitsOf(s[1..])
  {
  }

  lemma {:induction false} DigitsAll(s: string)
    requires AllDigits(s)
    ensures DigitsOf(s) == s
  {
    if s != "" { DigitsAll(s[1..]); }
  }

  lemma {:induction false} GroupedDigits(digits: string)
    requires AllDigits(digits)
    ensures DigitsOf(Grouped(digits)) == digits
  {
    if |digits| <= 3 {
      DigitsAll(digits);
    } else {
      var front, back := digits[..|digits| - 3], digits[|digits| - 3..];
      GroupedDigits(front);
      DigitsAll(back);
      assert Grouped(digits) == Grouped(front) + "," + back && front + back == digits;
      assert DigitsOf(",") == "";
      hide Grouped, DigitsOf;
      DigitsPlus(Grouped(front) + ",", back);
      DigitsPlus(Grouped(front), ",");
    }
  }

  lemma NumberDigits(cents: nat)
    ensures DigitsOf(Number(cents)) == Text(cents / 100) + Padded(cents % 100, 2)
    ensures Value(DigitsOf(Number(cents))) == cents
  {
    var units, rest := Text(cents / 100), Padded(cents % 100, 2);
    assert DigitsOf(".") == "";
    GroupedDigits(units);
    DigitsAll(rest);
    UnitsAndCents(cents);
    hide Text, Padded, Grouped, DigitsOf, Value;
    DigitsPlus(Grouped(units) + ".", rest);
    DigitsPlus(Grouped(units), ".");
    assert units + "" == units;
  }

  lemma UnitsAndCents(cents: nat)
    ensures Value(Text(cents / 100) + Padded(cents % 100, 2)) == cents
  {
    assert Pow10(2) == 100 by { assert Pow10(1) == 10; }
    PaddedValue(cents % 100, 2);
    ValueSplit(Text(cents / 100), Padded(cents % 100, 2));
    hide Text, Padded, Value, Pow10;
  }

  // What a printed amount says: a minus sign exactly for a debt, a dollar sign
  // or the currency behind, and the digits of the cents.
  lemma AmountMeans(cents: int, currency: string) returns (sign: string, number: string)
    ensures FormatAmount(cents, currency) == if currency == "USD" then sign + "$" + number else sign + number + " " + currency
    ensures sign == if cents < 0 then "-" else ""
    ensures Numeric(number) && Value(DigitsOf(number)) == if cents < 0 then -cents else cents
  {
    sign, number := if cents < 0 then "-" else "", Number(if cents < 0 then -cents else cents);
    NumberIsNumeric(if cents < 0 then -cents else cents);
    NumberDigits(if cents < 0 then -cents else cents);
    hide Number, DigitsOf, Numeric, Value;
  }

  // ------------------------------------------------------------------
  // The table
  // ------------------------------------------------------------------

  datatype AccountLine = AccountLine(
    name: string, category: string, entity: Option<string>, cents: int, currency: string, asOf: string)

  datatype TotalLine = TotalLine(totalLabel: string, cents: int, asOf: string)

  datatype BalanceTable = BalanceTable(accounts: seq<AccountLine>, totals: seq<TotalLine>)

  const ACCOUNT_COLUMNS := "| Account | Category | Entity | " + "Balance | As of |"
  const TOTAL_COLUMNS := "| Total | Balance | As of |"

  function Cell(text: string): string {
    "| " + text + " "
  }

  function AccountRow(a: AccountLine, u: Unicode): string {
    Cell(CleanLabel(a.name, u)) + (Cell(CleanLabel(a.category, u)) + (Cell(CleanOr(a.entity, "None", u))
    + (Cell(FormatAmount(a.cents, CleanLabel(a.currency, u))) + (Cell(a.asOf) + "|"))))
  }

  function TotalRow(t: TotalLine, u: Unicode): string {
    Cell(CleanLabel(t.totalLabel, u)) + (Cell(FormatAmount(t.cents, "USD")) + (Cell(t.asOf) + "|"))
  }

  // A reader of table rows: what stands between the bars.
  function Cells(row: string): (cells: seq<string>)
    ensures cells != []
  {
    if row == "" then [""] else
    var rest := Cells(row[1..]);
    if row[0] == '|' then [""] + rest else [[row[0]] + rest[0]] + rest[1..]
  }

  lemma {:induction false} CellThen(text: string, rest: string)
    requires '|' !in text
    ensures Cells(text + ("|" + rest)) == [text] + Cells(rest)
  {
    var s := text + ("|" + rest);
    if text == "" {
      assert s == "|" + rest && s[1..] == rest;
    } else {
      CellThen(text[1..], rest);
      assert s[0] == text[0] && s[0] in text && s[1..] == text[1..] + ("|" + rest);
      assert [s[0]] + text[1..] == text;
      assert ([text[1..]] + Cells(rest))[0] == text[1..] && ([text[1..]] + Cells(rest))[1..] == Cells(rest);
    }
  }

  // A row of these texts, each between a space on either side.
  function RowOf(texts: seq<string>): string {
    if texts == [] then "|" else Cell(texts[0]) + RowOf(texts[1..])
  }

  function Spread(texts: seq<string>): seq<string> {
    if texts == [] then [""] else [" " + texts[0] + " "] + Spread(texts[1..])
  }

  lemma {:induction false} RowCells(texts: seq<string>)
    requires forall i :: 0 <= i < |texts| ==> '|' !in texts[i]
    ensures Cells(RowOf(texts)) == [""] + Spread(texts)
    ensures RowOf(texts) != "" && RowOf(texts)[0] == '|'
  {
    if texts == [] {
      assert "|"[1..] == "";
    } else {
      RowCells(texts[1..]);
      FirstCell(texts[0], RowOf(texts[1..]), Spread(texts[1..]));
    }
  }

  lemma FirstCell(text: string, rest: string, spread: seq<string>)
    requires '|' !in text && rest != "" && rest[0] == '|' && Cells(rest) == [""] + spread
    ensures Cells(Cell(text) + rest) == [""] + ([" " + text + " "] + spread)
    ensures Cell(text) + rest != "" && (Cell(text) + rest)[0] == '|'
  {
    var padded, behind := " " + text + " ", rest[1..];
    var row := Cell(text) + rest;
    assert rest == "|" + behind && row == "|" + (padded + ("|" + behind));
    assert row[1..] == padded + ("|" + behind);
    CellThen(padded, behind);
    assert [""] + Cells(behind) == [""] + spread;
    assert ([""] + Cells(behind))[1..] == Cells(behind) && ([""] + spread)[1..] == spread;
  }

  // Read back, an account's row gives its name, category, entity, balance and
  // date, in this order, as long as no cell holds a bar.
  lemma AccountRowReads(a: AccountLine, u: Unicode)
    requires '|' !in CleanLabel(a.name, u) && '|' !in CleanLabel(a.category, u) && '|' !in CleanOr(a.entity, "None", u)
    requires '|' !in FormatAmount(a.cents, CleanLabel(a.currency, u)) && '|' !in a.asOf
    ensures Cells(AccountRow(a, u)) == [""] + Spread([
      CleanLabel(a.name, u), CleanLabel(a.category, u), CleanOr(a.entity, "None", u),
      FormatAmount(a.cents, CleanLabel(a.currency, u)), a.asOf])
  {
    AccountRowIs(a, u);
    hide *;
    FiveRead(CleanLabel(a.name, u), CleanLabel(a.category, u), CleanOr(a.entity, "None", u),
             FormatAmount(a.cents, CleanLabel(a.currency, u)), a.asOf);
  }

  lemma FiveRead(a: string, b: string, c: string, d: string, e: string)
    requires '|' !in a && '|' !in b && '|' !in c && '|' !in d && '|' !in e
    ensures Cells(Cell(a) + (Cell(b) + (Cell(c) + (Cell(d) + (Cell(e) + "|"))))) == [""] + Spread([a, b, c, d, e])
  {
    var texts := [a, b, c, d, e];
    RowCells(texts);
    hide Cell, Cells, Spread;
    assert texts[1..] == [b, c, d, e] && texts[1..][1..] == [c, d, e] && texts[1..][1..][1..] == [d, e];
    assert RowOf([e]) == Cell(e) + "|" by { assert [e][1..] == []; }
    assert RowOf([d, e]) == Cell(d) + RowOf([e]) by { assert [d, e][1..] == [e]; }
    assert RowOf([c, d, e]) == Cell(c) + RowOf([d, e]) by { assert [c, d, e][1..] == [d, e]; }
  }

  lemma TotalRowReads(t: TotalLine, u: Unicode)
    requires '|' !in CleanLabel(t.totalLabel, u) && '|' !in FormatAmount(t.cents, "USD") && '|' !in t.asOf
    ensures Cells(TotalRow(t, u)) == [""] + Spread([CleanLabel(t.totalLabel, u), FormatAmount(t.cents, "USD"), t.asOf])
  {
    hide CleanLabel, FormatAmount, Cells, Spread, Cell;
    ThreeRead(CleanLabel(t.totalLabel, u), FormatAmount(t.cents, "USD"), t.asOf);
  }

  lemma ThreeRead(a: string, b: string, c: string)
    requires '|' !in a && '|' !in b && '|' !in c
    ensures Cells(Cell(a) + (Cell(b) + (Cell(c) + "|"))) == [""] + Spread([a, b, c])
  {
    RowCells([a, b, c]);
    hide Cell, Cells, Spread;
    assert [a, b, c][1..] == [b, c] && [b, c][1..] == [c];
    assert RowOf([c]) == Cell(c) + "|" by { assert [c][1..] == []; }
  }

  function AccountRows(accounts: seq<AccountLine>, u: Unicode): (rows: seq<string>)
    ensures |rows| == |accounts| && forall i :: 0 <= i < |rows| ==> rows[i] == AccountRow(accounts[i], u)
  {
    seq(|accounts|, i requires 0 <= i < |accounts| => AccountRow(accounts[i], u))
  }

  function TotalRows(totals: seq<TotalLine>, u: Unicode): (rows: seq<string>)
    ensures |rows| == |totals| && forall i :: 0 <= i < |rows| ==> rows[i] == TotalRow(totals[i], u)
  {
    seq(|totals|, i requires 0 <= i < |totals| => TotalRow(totals[i], u))
  }

  function TableRows(table: BalanceTable, u: Unicode): seq<string> {
    (if table.accounts == [] then [] else ["Accounts:", ACCOUNT_COLUMNS] + AccountRows(table.accounts, u))
    + if table.totals == [] then [] else
      ["", "Daily totals (US dollars):", TOTAL_COLUMNS] + TotalRows(table.totals, u)
  }

  function BalanceSection(table: BalanceTable, u: Unicode): string {
    Join([BALANCE_LINE] + if table.accounts == [] && table.totals == [] then [NO_BALANCES] else TableRows(table, u))
  }

  method BalanceSectionByRow(table: BalanceTable, u: Unicode) returns (section: string)
    ensures section == BalanceSection(table, u)
  {
    hide AccountRow, TotalRow, Join;
    var lines := [BALANCE_LINE];
    if table.accounts == [] && table.totals == [] {
      lines := lines + [NO_BALANCES];
      return Join(lines);
    }
    if table.accounts != [] {
      lines := lines + ["Accounts:", ACCOUNT_COLUMNS];
      for i := 0 to |table.accounts|
        invariant lines == [BALANCE_LINE] + (["Accounts:", ACCOUNT_COLUMNS] + AccountRows(table.accounts, u)[..i])
      {
        lines := lines + [AccountRow(table.accounts[i], u)];
      }
    }
    ghost var before := lines;
    if table.totals != [] {
      lines := lines + ["", "Daily totals (US dollars):", TOTAL_COLUMNS];
      for i := 0 to |table.totals|
        invariant lines == before + (["", "Daily totals (US dollars):", TOTAL_COLUMNS] + TotalRows(table.totals, u)[..i])
      {
        lines := lines + [TotalRow(table.totals[i], u)];
      }
    }
    assert lines == [BALANCE_LINE] + TableRows(table, u);
    section := Join(lines);
  }

  // ------------------------------------------------------------------
  // Every row stays one line
  // ------------------------------------------------------------------

  ghost predicate DatedOnOneLine(table: BalanceTable) {
    && (forall i :: 0 <= i < |table.accounts| ==> OneLine(table.accounts[i].asOf))
    && (forall i :: 0 <= i < |table.totals| ==> OneLine(table.totals[i].asOf))
  }

  lemma CellIsOneLine(text: string, rest: string)
    requires OneLine(text) && OneLine(rest)
    ensures OneLine(Cell(text) + rest) && (Cell(text) + rest)[0] == '|'
  {
  }

  lemma NumericIsOneLine(s: string)
    requires Numeric(s)
    ensures OneLine(s)
  {
  }

  lemma AmountIsOneLine(cents: int, currency: string)
    requires OneLine(currency)
    ensures OneLine(FormatAmount(cents, currency))
  {
    var sign, number := AmountMeans(cents, currency);
    NumericIsOneLine(number);
    hide FormatAmount, Numeric, DigitsOf;
    OneLineJoined(sign, number, currency);
  }

  lemma OneLineJoined(sign: string, number: string, currency: string)
    requires OneLine(number) && OneLine(currency) && (sign == "" || sign == "-")
    ensures OneLine(sign + "$" + number) && OneLine(sign + number + " " + currency)
  {
  }

  lemma AccountRowIsOneLine(a: AccountLine, u: Unicode)
    requires OneLine(a.asOf)
    ensures OneLine(AccountRow(a, u)) && AccountRow(a, u)[0] == '|'
  {
    assert OneLine("None");
    hide *;
    LabelIsOneLine(a.name, u);
    LabelIsOneLine(a.category, u);
    LabelIsOneLine(a.currency, u);
    CleanOrIsOneLine(a.entity, "None", u);
    AmountIsOneLine(a.cents, CleanLabel(a.currency, u));
    AccountRowIs(a, u);
    FiveCells(CleanLabel(a.name, u), CleanLabel(a.category, u), CleanOr(a.entity, "None", u),
              FormatAmount(a.cents, CleanLabel(a.currency, u)), a.asOf);
  }

  lemma AccountRowIs(a: AccountLine, u: Unicode)
    ensures AccountRow(a, u) == Cell(CleanLabel(a.name, u)) + (Cell(CleanLabel(a.category, u))
      + (Cell(CleanOr(a.entity, "None", u)) + (Cell(FormatAmount(a.cents, CleanLabel(a.currency, u))) + (Cell(a.asOf) + "|"))))
  {
  }

  lemma FiveCells(name: string, category: string, entity: string, amount: string, asOf: string)
    requires OneLine(name) && OneLine(category) && OneLine(entity) && OneLine(amount) && OneLine(asOf)
    ensures OneLine(Cell(name) + (Cell(category) + (Cell(entity) + (Cell(amount) + (Cell(asOf) + "|")))))
    ensures (Cell(name) + (Cell(category) + (Cell(entity) + (Cell(amount) + (Cell(asOf) + "|")))))[0] == '|'
  {
    hide OneLine, Cell;
    AmountRowIsOneLine(amount, asOf);
    CellIsOneLine(entity, Cell(amount) + (Cell(asOf) + "|"));
    CellIsOneLine(category, Cell(entity) + (Cell(amount) + (Cell(asOf) + "|")));
    CellIsOneLine(name, Cell(category) + (Cell(entity) + (Cell(amount) + (Cell(asOf) + "|"))));
  }

  lemma AmountRowIsOneLine(amount: string, asOf: string)
    requires OneLine(amount) && OneLine(asOf)
    ensures OneLine(Cell(amount) + (Cell(asOf) + "|"))
  {
    assert OneLine("|");
    hide OneLine, Cell;
    CellIsOneLine(asOf, "|");
    CellIsOneLine(amount, Cell(asOf) + "|");
  }

  lemma TotalRowIsOneLine(t: TotalLine, u: Unicode)
    requires OneLine(t.asOf)
    ensures OneLine(TotalRow(t, u)) && TotalRow(t, u)[0] == '|'
  {
    LabelIsOneLine(t.totalLabel, u);
    AmountIsOneLine(t.cents, "USD");
    hide OneLine, CleanLabel, FormatAmount, Cell;
    var amount := Cell(FormatAmount(t.cents, "USD")) + (Cell(t.asOf) + "|");
    AmountRowIsOneLine(FormatAmount(t.cents, "USD"), t.asOf);
    CellIsOneLine(CleanLabel(t.totalLabel, u), amount);
  }

  // A line of the table below its heading.
  predicate TableLine(line: string) {
    OneLine(line) && (line == "" || line[0] != '#')
  }

  lemma FixedTableLines()
    ensures TableLine("Accounts:") && TableLine(ACCOUNT_COLUMNS) && TableLine("") && TableLine(NO_BALANCES)
    ensures TableLine("Daily totals (US dollars):") && TableLine(TOTAL_COLUMNS)
    ensures OneLine(BALANCE_LINE) && BALANCE_LINE[0] == '#' && SOURCES_LINE[0] == '#'
  {
    OneLinePlus("| Account | Category | Entity | ", "Balance | As of |");
  }

  lemma AccountRowsAreTableLines(accounts: seq<AccountLine>, u: Unicode)
    requires forall i :: 0 <= i < |accounts| ==> OneLine(accounts[i].asOf)
    ensures forall i :: 0 <= i < |accounts| ==> TableLine(AccountRows(accounts, u)[i])
  {
    hide OneLine, AccountRow;
    forall i | 0 <= i < |accounts| ensures TableLine(AccountRows(accounts, u)[i]) {
      AccountRowIsOneLine(accounts[i], u);
    }
  }

  lemma TotalRowsAreTableLines(totals: seq<TotalLine>, u: Unicode)
    requires forall i :: 0 <= i < |totals| ==> OneLine(totals[i].asOf)
    ensures forall i :: 0 <= i < |totals| ==> TableLine(TotalRows(totals, u)[i])
  {
    hide OneLine, TotalRow;
    forall i | 0 <= i < |totals| ensures TableLine(TotalRows(totals, u)[i]) {
      TotalRowIsOneLine(totals[i], u);
    }
  }

  lemma TableRowsAreTableLines(table: BalanceTable, u: Unicode)
    requires DatedOnOneLine(table)
    ensures forall i :: 0 <= i < |TableRows(table, u)| ==> TableLine(TableRows(table, u)[i])
  {
    FixedTableLines();
    AccountRowsAreTableLines(table.accounts, u);
    TotalRowsAreTableLines(table.totals, u);
    hide TableLine, AccountRow, TotalRow;
  }

  lemma BalanceLines(table: BalanceTable, u: Unicode) returns (rows: seq<string>)
    requires DatedOnOneLine(table)
    ensures SplitNl(BalanceSection(table, u)) == [BALANCE_LINE] + rows && HeadingFree(rows)
    ensures rows == if table.accounts == [] && table.totals == [] then [NO_BALANCES] else TableRows(table, u)
  {
    rows := if table.accounts == [] && table.totals == [] then [NO_BALANCES] else TableRows(table, u);
    TableRowsAreTableLines(table, u);
    FixedTableLines();
    hide TableRows, Join, SplitNl, DatedOnOneLine, TableLine, HeadingFree;
    HeadedLines(rows);
  }

  lemma HeadedLines(rows: seq<string>)
    requires forall i :: 0 <= i < |rows| ==> TableLine(rows[i])
    ensures SplitNl(Join([BALANCE_LINE] + rows)) == [BALANCE_LINE] + rows && HeadingFree(rows)
  {
    FixedTableLines();
    HeadedBy(BALANCE_LINE, rows);
  }

  lemma HeadedBy(heading: string, rows: seq<string>)
    requires OneLine(heading) && forall i :: 0 <= i < |rows| ==> OneLine(rows[i])
    ensures SplitNl(Join([heading] + rows)) == [heading] + rows
  {
    hide SplitNl, Join, OneLine;
    var lines := [heading] + rows;
    assert forall i :: 0 < i < |lines| ==> lines[i] == rows[i - 1];
    LinesOfOneLiners(lines);
    SplitJoin(lines);
  }

  // ------------------------------------------------------------------
  // The whole prompt
  // ------------------------------------------------------------------

  const GAP := "\n\n"

  function Sections(table: BalanceTable, results: seq<SearchResult>, u: Unicode): string {
    BalanceSection(table, u) + GAP + SourcesSection(results, u)
  }

  function AssembleSystemPrompt(
    instructions: string, table: BalanceTable, results: seq<SearchResult>, u: Unicode): string
  {
    Strip(instructions) + GAP + BalanceSection(table, u) + GAP + SourcesSection(results, u)
  }

  lemma SplitAtGap(a: string, b: string)
    ensures SplitNl(a + GAP + b) == SplitNl(a) + [""] + SplitNl(b)
  {
    assert a + GAP + b == a + ("\n" + ("" + ("\n" + b)));
    SplitPlus(a, "" + ("\n" + b));
    SplitPlus("", b);
    SplitOne("");
    hide SplitNl;
    assert SplitNl(a) + ([""] + SplitNl(b)) == SplitNl(a) + [""] + SplitNl(b);
  }

  lemma CountAtGap(a: string, b: string, line: string)
    requires line != ""
    ensures multiset(SplitNl(a + GAP + b))[line] == multiset(SplitNl(a))[line] + multiset(SplitNl(b))[line]
  {
    SplitAtGap(a, b);
    hide SplitNl;
    CountPlus(SplitNl(a) + [""], SplitNl(b), line);
    CountPlus(SplitNl(a), [""], line);
  }

  lemma BalanceHeadings(table: BalanceTable, u: Unicode)
    requires DatedOnOneLine(table)
    ensures multiset(SplitNl(BalanceSection(table, u)))[BALANCE_LINE] == 1
    ensures multiset(SplitNl(BalanceSection(table, u)))[SOURCES_LINE] == 0
  {
    var rows := BalanceLines(table, u);
    hide SplitNl, BalanceSection, DatedOnOneLine;
    assert |SOURCES_LINE| != |BALANCE_LINE|;
    CountPlus([BALANCE_LINE], rows, BALANCE_LINE);
    CountPlus([BALANCE_LINE], rows, SOURCES_LINE);
  }

  // For any passages, titles and account names, and one-line dates, the two
  // sections together hold one line for each heading.
  lemma OneOfEachHeading(table: BalanceTable, results: seq<SearchResult>, u: Unicode)
    requires Usable(u) && DatedOnOneLine(table)
    ensures multiset(SplitNl(Sections(table, results, u)))[BALANCE_LINE] == 1
    ensures multiset(SplitNl(Sections(table, results, u)))[SOURCES_LINE] == 1
  {
    BalanceHeadings(table, u);
    SourcesHeadings(results, u);
    hide SplitNl, BalanceSection, SourcesSection, DatedOnOneLine, Usable;
    FixedTableLines();
    CountAtGap(BalanceSection(table, u), SourcesSection(results, u), BALANCE_LINE);
    CountAtGap(BalanceSection(table, u), SourcesSection(results, u), SOURCES_LINE);
  }

  // In the whole prompt, a heading appears once more than in the instructions.
  lemma OneHeadingMoreThanInstructions(
    instructions: string, table: BalanceTable, results: seq<SearchResult>, u: Unicode, heading: string)
    requires Usable(u) && DatedOnOneLine(table) && (heading == BALANCE_LINE || heading == SOURCES_LINE)
    ensures multiset(SplitNl(AssembleSystemPrompt(instructions, table, results, u)))[heading]
         == multiset(SplitNl(Strip(instructions)))[heading] + 1
  {
    OneOfEachHeading(table, results, u);
    FixedTableLines();
    hide SplitNl, BalanceSection, SourcesSection, DatedOnOneLine, Usable, Strip;
    CountAtGap(Strip(instructions), Sections(table, results, u), heading);
    Regroup(Strip(instructions), BalanceSection(table, u), SourcesSection(results, u));
  }

  lemma Regroup(a: string, b: string, c: string)
    ensures a + GAP + (b + GAP + c) == a + GAP + b + GAP + c
  {
  }

  // Line by line: the heading, a notice when there is nothing to show, and
  // otherwise every account and then every total in its order, each list under
  // its own lines.
  lemma TableByLine(table: BalanceTable, u: Unicode) returns (accounts: seq<string>, totals: seq<string>)
    requires DatedOnOneLine(table)
    ensures |accounts| == |table.accounts| && forall i :: 0 <= i < |accounts| ==> accounts[i] == AccountRow(table.accounts[i], u)
    ensures |totals| == |table.totals| && forall i :: 0 <= i < |totals| ==> totals[i] == TotalRow(table.totals[i], u)
    ensures SplitNl(BalanceSection(table, u)) == [BALANCE_LINE]
      + (if accounts == [] then [] else ["Accounts:", ACCOUNT_COLUMNS] + accounts)
      + (if totals == [] then [] else ["", "Daily totals (US dollars):", TOTAL_COLUMNS] + totals)
      + (if accounts == [] && totals == [] then [NO_BALANCES] else [])
  {
    accounts, totals := AccountRows(table.accounts, u), TotalRows(table.totals, u);
    var rows := BalanceLines(table, u);
    hide SplitNl, BalanceSection, AccountRow, TotalRow, DatedOnOneLine, HeadingFree;
    Regrouped(if accounts == [] then [] else ["Accounts:", ACCOUNT_COLUMNS] + accounts,
              if totals == [] then [] else ["", "Daily totals (US dollars):", TOTAL_COLUMNS] + totals);
  }

  lemma Regrouped(a: seq<string>, b: seq<string>)
    ensures [BALANCE_LINE] + (a + b) == [BALANCE_LINE] + a + b + []
    ensures [BALANCE_LINE] + [NO_BALANCES] == [BALANCE_LINE] + [] + [] + [NO_BALANCES]
  {
  }

  // The prompt is the instructions, the table and the passages, in this order.
  lemma PromptByLine(instructions: string, table: BalanceTable, results: seq<SearchResult>, u: Unicode)
    ensures SplitNl(AssembleSystemPrompt(instructions, table, results, u))
         == SplitNl(Strip(instructions)) + [""] + SplitNl(BalanceSection(table, u)) + [""] + SplitNl(SourcesSection(results, u))
  {
    hide SplitNl, BalanceSection, SourcesSection, Strip;
    SplitAtGap(Strip(instructions) + GAP + BalanceSection(table, u), SourcesSection(results, u));
    SplitAtGap(Strip(instructions), BalanceSection(table, u));
  }
}
