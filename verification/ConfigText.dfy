/** The parts of the configuration loader that take text apart: which paths lie under
    which, and lists of identities.  A text here is a C string up to its NUL. */
module ConfigText {
  import opened Bytes

  // ---------------------------------------------------------------- paths

  /** `path_is_under`, and `audit_path_under` in the audit writer: root is not empty, it
      starts path, and path ends there or goes on with a slash. */
  predicate PathIsUnder(path: string, root: string) {
    root != "" && Starts(path, root)
  }

  predicate Starts(path: string, root: string) {
    root <= path && (|path| == |root| || path[|root|] == '/')
  }

  /** The names between the slashes of t. */
  function Split(t: string): (parts: seq<string>)
    ensures |parts| > 0
  {
    if t == "" then
      [""]
    else
      var rest := Split(t[1..]);
      if t[0] == '/' then [""] + rest else [[t[0]] + rest[0]] + rest[1..]
  }

  lemma {:induction false} StartsIsComponentPrefix(path: string, root: string)
    ensures Starts(path, root) <==> Split(root) <= Split(path)
  {
    if root != "" && path != "" && root[0] == path[0] {
      StartsIsComponentPrefix(path[1..], root[1..]);
      StartsTail(path, root);
      var a, b := Split(root[1..]), Split(path[1..]);
      if root[0] == '/' {
        assert Split(root)[1..] == a && Split(path)[1..] == b;
      } else {
        assert Split(root)[1..] == a[1..] && Split(path)[1..] == b[1..];
        assert Split(root)[0][1..] == a[0] && Split(path)[0][1..] == b[0];
        PrefixByHead(a, b);
        PrefixByHead(Split(root), Split(path));
      }
    } else if root == "" {
      assert Split(root) <= Split(path) <==> Split(path)[0] == "";
    } else if path != "" {
      assert Split(root)[0] == "" || Split(root)[0][0] == root[0];
      assert Split(path)[0] == "" || Split(path)[0][0] == path[0];
      assert Split(root)[0] != Split(path)[0];
    } else if root[0] != '/' {
      assert Split(root)[0] != "";
    }
  }

  lemma StartsTail(path: string, root: string)
    requires root != "" && path != "" && root[0] == path[0]
    ensures Starts(path, root) <==> Starts(path[1..], root[1..])
  {
    if root[1..] <= path[1..] {
      assert root == [root[0]] + root[1..] && path == [path[0]] + path[1..];
    }
  }

  lemma PrefixByHead<T>(a: seq<T>, b: seq<T>)
    requires a != [] && b != []
    ensures a <= b <==> a[0] == b[0] && a[1..] <= b[1..]
  {
    assert a == [a[0]] + a[1..] && b == [b[0]] + b[1..];
  }

  /** A path lies under a root exactly when the names of the root start its names. */
  lemma UnderIsComponentPrefix(path: string, root: string)
    requires root != ""
    ensures PathIsUnder(path, root) <==> Split(root) <= Split(path)
  {
    StartsIsComponentPrefix(path, root);
  }

  /** Lying under is a partial order on non-empty paths whose ancestors form chains. */
  lemma UnderIsForest(a: string, b: string, c: string)
    requires a != "" && b != "" && c != ""
    ensures PathIsUnder(a, a)
    ensures PathIsUnder(a, b) && PathIsUnder(b, a) ==> a == b
    ensures PathIsUnder(a, b) && PathIsUnder(b, c) ==> PathIsUnder(a, c)
    ensures PathIsUnder(a, b) && PathIsUnder(a, c) ==> PathIsUnder(b, c) || PathIsUnder(c, b)
  {
    UnderIsComponentPrefix(a, c);
    UnderIsComponentPrefix(a, b);
    UnderIsComponentPrefix(b, c);
    UnderIsComponentPrefix(c, b);
  }

  datatype PathRule = PathRule(path: string, writable: bool)

  /** No writable rule covers the audit log, name by name. */
  predicate Outside(auditLog: string, rules: seq<PathRule>) {
    forall i | 0 <= i < |rules| ::
      rules[i].writable && rules[i].path != "" ==> !(Split(rules[i].path) <= Split(auditLog))
  }

  /** The last check of `anything_config_validate_with_options`. */
  method AuditLogOutside(auditLog: string, rules: seq<PathRule>) returns (ok: bool)
    ensures ok == Outside(auditLog, rules)
  {
    for i := 0 to |rules|
      invariant Outside(auditLog, rules[..i])
    {
      if rules[i].path != "" {
        UnderIsComponentPrefix(auditLog, rules[i].path);
      }
      if rules[i].writable && PathIsUnder(auditLog, rules[i].path) {
        return false;
      }
    }
    assert rules[..|rules|] == rules;
    return true;
  }

  // ---------------------------------------------------------------- numbers

  /** The range of a 64-bit `long`. */
  const LONG_MAX := 0x7fff_ffff_ffff_ffff
  const LONG_MIN := -0x8000_0000_0000_0000

  function Clamp(n: int): int {
    if n < LONG_MIN then LONG_MIN else if n > LONG_MAX then LONG_MAX else n
  }

  predicate AreDigits(d: string) {
    forall i | 0 <= i < |d| :: '0' <= d[i] <= '9'
  }

  /** The digits t starts with. */
  function DigitRun(t: string): (d: string)
    ensures d <= t && AreDigits(d)
  {
    if t != "" && '0' <= t[0] <= '9' then [t[0]] + DigitRun(t[1..]) else ""
  }

  /** `strtol` in base 10: spaces, a sign, digits, and the value held to a `long`;
      Fail when no digit was found, which leaves end at t. */
  function Strtol(t: string): Scan<int> {
    var u := SkipWs(t);
    var body := u[|Sign(u)|..];
    var d := DigitRun(body);
    if d == "" then Fail else Got(Signed(Sign(u), d), body[|d|..])
  }

  function Sign(u: string): (s: string)
    ensures s <= u && (s == "" || s == "-" || s == "+")
  {
    if u != "" && (u[0] == '-' || u[0] == '+') then u[..1] else ""
  }

  function Signed(sign: string, digits: string): int
    requires AreDigits(digits)
  {
    var n := Digits(digits, 0);
    Clamp(if sign == "-" then 0 - n else n)
  }

  /** One written number and the blanks around it. */
  datatype Numeral = Numeral(before: string, sign: string, digits: string, after: string) {
    predicate WellFormed() {
      IsBlank(before) && sign in ["", "-", "+"] && digits != "" && AreDigits(digits) && IsBlank(after)
    }

    function Text(): string {
      before + (sign + (digits + after))
    }

    function Value(): int
      requires WellFormed()
    {
      Signed(sign, digits)
    }
  }

  function Printed(n: int, before: string, after: string): Numeral {
    Numeral(before, if n < 0 then "-" else "", Decimal(if n < 0 then -n else n), after)
  }

  /** A number printed with `%ld` reads back as itself exactly when it fits a `long`. */
  lemma PrintedNumberReadsBack(n: int, before: string, after: string)
    requires IsBlank(before) && IsBlank(after)
    ensures var m := Printed(n, before, after);
      m.WellFormed() && m.Text() == before + Number(n) + after && (m.Value() == n <==> LONG_MIN <= n <= LONG_MAX)
  {
    hide Decimal, Digits, IsBlank;
    var m := Printed(n, before, after);
    var k := if n < 0 then -n else n;
    DecimalRoundTrip(k);
    assert m.Value() == Clamp(n);
    assert m.sign + m.digits == Number(n);
    assert m.sign + (m.digits + after) == Number(n) + after;
  }

  /** Signs and the ends of the range: a plus sign changes nothing, a minus sign negates,
      and what does not fit a `long` is held to its nearest end. */
  lemma SignedNumberReadsBack(n: nat)
    ensures Signed("", Decimal(n)) == Signed("+", Decimal(n)) ==
      if n <= 0x7fff_ffff_ffff_ffff then n else 0x7fff_ffff_ffff_ffff
    ensures Signed("-", Decimal(n)) == if n <= 0x8000_0000_0000_0000 then 0 - n else -0x8000_0000_0000_0000
  {
    DecimalRoundTrip(n);
  }

  lemma {:induction false} DigitRunStops(d: string, r: string)
    requires AreDigits(d) && !('0' <= Hd(r) <= '9')
    ensures DigitRun(d + r) == d && (d + r)[|d|..] == r
  {
    if d == "" {
      assert d + r == r;
    } else {
      assert (d + r)[1..] == d[1..] + r;
      DigitRunStops(d[1..], r);
    }
  }

  lemma SignOfNumeral(sign: string, digits: string, d: string)
    requires sign in ["", "-", "+"] && digits != "" && AreDigits(digits) && digits <= d
    ensures Sign(sign + d) == sign && (sign + d)[|sign|..] == d && !IsSpace(Hd(sign + d))
  {
    var u := sign + d;
    assert '0' <= d[0] <= '9' by {
      assert d[0] == digits[0];
    }
    if sign == "" {
      assert u == d;
    } else {
      assert u[..1] == sign && u[0] == sign[0];
    }
  }

  /** Reading a written number stops before the blanks that follow it. */
  lemma StrtolReadsNumeral(m: Numeral, r: string)
    requires m.WellFormed() && !('0' <= Hd(m.after + r) <= '9')
    ensures Strtol(m.Text() + r) == Got(m.Value(), m.after + r)
  {
    hide SkipWs, DigitRun, Signed, IsBlank, Numeral.Text;
    var d := m.digits + (m.after + r);
    var u := m.sign + d;
    Regroup(m, r);
    SignOfNumeral(m.sign, m.digits, d);
    SkipWsBlank(m.before, u);
    DigitRunStops(m.digits, m.after + r);
  }

  lemma Regroup(m: Numeral, r: string)
    ensures m.Text() + r == m.before + (m.sign + (m.digits + (m.after + r)))
  {
  }

  /** Whatever `strtol` accepts is a written number. */
  lemma StrtolIsNumeral(t: string) returns (m: Numeral)
    requires Strtol(t).Got?
    ensures m.WellFormed() && m.after == "" && m.Value() == Strtol(t).value && t == m.Text() + Strtol(t).rest
  {
    hide DigitRun, Sign, Signed, SkipWs, IsBlank, AreDigits;
    hide Numeral.Text, Numeral.WellFormed, Numeral.Value;
    var w, u := SplitWs(t);
    var body := u[|Sign(u)|..];
    var d := DigitRun(body);
    var r := body[|d|..];
    m := Written(w, Sign(u), d, r);
    assert body == d + r;
    assert u == Sign(u) + body;
  }

  lemma Written(w: string, sign: string, d: string, r: string) returns (m: Numeral)
    requires IsBlank(w) && (sign == "" || sign == "-" || sign == "+") && d != "" && AreDigits(d)
    ensures m.WellFormed() && m.after == "" && m.Value() == Signed(sign, d)
    ensures m.Text() + r == w + (sign + (d + r))
  {
    m := Numeral(w, sign, d, "");
    assert m.WellFormed();
    hide Signed, IsBlank, AreDigits;
    assert "" + r == r;
    Regroup(m, r);
  }

  // ---------------------------------------------------------------- trimming

  function TrimEnd(t: string): (r: string)
    ensures r <= t
  {
    if t != "" && IsSpace(t[|t| - 1]) then TrimEnd(t[..|t| - 1]) else t
  }

  /** `trim`: the text without the blanks at its two ends. */
  function Trim(t: string): (r: string)
    ensures |r| <= |t|
  {
    TrimEnd(SkipWs(t))
  }

  lemma {:induction false} TrimEndRemovesBlanks(t: string)
    ensures IsBlank(t[|TrimEnd(t)|..])
  {
    if t != "" && IsSpace(t[|t| - 1]) {
      var u := t[..|t| - 1];
      TrimEndRemovesBlanks(u);
      assert t[|TrimEnd(t)|..] == u[|TrimEnd(t)|..] + [t[|t| - 1]];
    }
  }

  /** Trimming the end never reaches past a character that is not blank. */
  lemma {:induction false} TrimEndKeeps(u: string, v: string)
    requires u != "" && !IsSpace(u[|u| - 1])
    ensures TrimEnd(u + v) == u + TrimEnd(v)
  {
    var t := u + v;
    if v == "" {
      assert t == u;
    } else if IsSpace(v[|v| - 1]) {
      assert t[..|t| - 1] == u + v[..|v| - 1];
      TrimEndKeeps(u, v[..|v| - 1]);
    }
  }

  /** Trimming takes blanks, and only blanks, from both ends, until none is left there. */
  lemma TrimExact(t: string) returns (w: string, v: string)
    ensures t == w + Trim(t) + v && IsBlank(w) && IsBlank(v)
    ensures Trim(t) != "" ==> !IsSpace(Trim(t)[0]) && !IsSpace(Trim(t)[|Trim(t)| - 1])
  {
    var u;
    w, u := SplitWs(t);
    TrimEndRemovesBlanks(u);
    TrimEndStops(u);
    v := u[|Trim(t)|..];
  }

  lemma {:induction false} TrimEndStops(t: string)
    ensures TrimEnd(t) != "" ==> !IsSpace(TrimEnd(t)[|TrimEnd(t)| - 1])
  {
    if t != "" && IsSpace(t[|t| - 1]) {
      TrimEndStops(t[..|t| - 1]);
    }
  }

  // ---------------------------------------------------------------- lists

  /** The loop of `parse_long_array` over the text after the bracket. */
  function LongLoop(t: string, acc: seq<int>, max: nat): Option<seq<int>>
    decreases |t|
  {
    if t == "" then
      None
    else
      var p := Trim(t);
      if Hd(p) == ']' then
        Some(acc)
      else if |acc| >= max then
        None
      else
        match Strtol(p)
        case Fail => None
        case Got(n, r) =>
          StrtolShrinks(p);
          var q := SkipWs(r);
          if Hd(q) == ',' then
            LongLoop(q[1..], acc + [n], max)
          else if Hd(q) == ']' then
            Some(acc + [n])
          else
            None
  }

  lemma StrtolShrinks(t: string)
    ensures Strtol(t).Got? ==> |Strtol(t).rest| <= |t|
  {
    if Strtol(t).Got? {
      var m := StrtolIsNumeral(t);
    }
  }

  function AfterBracket(t: string): Option<string> {
    if t == "" then None else if t[0] == '[' then Some(t[1..]) else AfterBracket(t[1..])
  }

  /** `parse_long_array`: None is the error return. */
  function ParseLongArray(value: string, max: nat): Option<seq<int>> {
    match AfterBracket(value)
    case None => None
    case Some(t) => LongLoop(t, [], max)
  }

  /** A written list: anything before the bracket that has no bracket, the numbers, a
      comma after the last one or not, blanks before a closing bracket that follows no
      number, and anything after it. */
  datatype ListText = ListText(lead: string, items: seq<Numeral>, trailing: bool, blanks: string, junk: string) {
    predicate WellFormed() {
      '[' !in lead && (forall m <- items :: m.WellFormed()) && IsBlank(blanks)
    }

    function Text(): string {
      lead + "[" + Body()
    }

    function Body(): string {
      ItemsText(items, trailing, blanks) + junk
    }

    function Numbers(): seq<int>
      requires WellFormed()
    {
      Values(items)
    }
  }

  function ItemsText(items: seq<Numeral>, trailing: bool, blanks: string): (t: string)
    ensures t != "" && t[|t| - 1] == ']'
  {
    if items == [] then
      blanks + "]"
    else if |items| == 1 && !trailing then
      items[0].Text() + "]"
    else
      items[0].Text() + ("," + ItemsText(items[1..], trailing, blanks))
  }

  function Values(items: seq<Numeral>): (ns: seq<int>)
    requires forall m <- items :: m.WellFormed()
    ensures |ns| == |items| && forall i | 0 <= i < |ns| :: ns[i] == items[i].Value()
  {
    if items == [] then [] else [items[0].Value()] + Values(items[1..])
  }

  lemma {:induction false} AfterBracketSplits(lead: string, t: string)
    requires '[' !in lead
    ensures AfterBracket(lead + "[" + t) == Some(t)
  {
    var s := lead + "[" + t;
    if lead == "" {
      assert s[1..] == t;
    } else {
      assert s[1..] == lead[1..] + "[" + t;
      assert s[0] == lead[0] && lead[0] in lead;
      AfterBracketSplits(lead[1..], t);
    }
  }

  lemma {:induction false} AfterBracketFinds(value: string) returns (lead: string)
    requires AfterBracket(value).Some?
    ensures '[' !in lead && value == lead + "[" + AfterBracket(value).value
  {
    if value[0] == '[' {
      lead := "";
    } else {
      var l := AfterBracketFinds(value[1..]);
      lead := [value[0]] + l;
    }
  }

  /** Blanks, something that is not blank, and what follows: trimming takes the blanks
      away and leaves the middle alone. */
  lemma TrimMiddle(w: string, u: string, v: string)
    requires IsBlank(w) && u != "" && !IsSpace(u[0]) && !IsSpace(u[|u| - 1])
    ensures Trim(w + (u + v)) == u + TrimEnd(v)
  {
    assert Hd(u + v) == u[0];
    SkipWsBlank(w, u + v);
    TrimEndKeeps(u, v);
  }

  /** Reading a written list gives its values when there is room for them and fails when
      there is not. */
  lemma {:induction false} LoopReadsItems(
    items: seq<Numeral>, trailing: bool, blanks: string, junk: string, acc: seq<int>, max: nat)
    requires (forall m <- items :: m.WellFormed()) && IsBlank(blanks) && |acc| <= max
    ensures LongLoop(ItemsText(items, trailing, blanks) + junk, acc, max) ==
      if |acc| + |items| <= max then Some(acc + Values(items)) else None
    decreases |items|
  {
    hide LongLoop, TrimEnd, IsBlank, Numeral.WellFormed, Numeral.Text, Numeral.Value;
    var t := ItemsText(items, trailing, blanks) + junk;
    if items == [] {
      LoopCloses(blanks, junk, acc, max);
      assert t == blanks + "]" + junk;
      assert acc + Values(items) == acc;
    } else {
      var m, tail := items[0], items[1..];
      var next := acc + [m.Value()];
      assert acc + Values(items) == next + Values(tail);
      if tail == [] && !trailing {
        LoopStep(m, ']', "", junk, acc, max);
        assert t == m.Text() + ([']'] + "") + junk;
        assert next + Values(tail) == next;
      } else {
        var more := ItemsText(tail, trailing, blanks);
        LoopStep(m, ',', more, junk, acc, max);
        assert t == m.Text() + ([','] + more) + junk;
        if |acc| < max {
          LoopReadsItems(tail, trailing, blanks, TrimEnd(junk), next, max);
        }
      }
    }
  }

  lemma LoopCloses(blanks: string, junk: string, acc: seq<int>, max: nat)
    requires IsBlank(blanks)
    ensures LongLoop(blanks + "]" + junk, acc, max) == Some(acc)
  {
    hide SkipWs, TrimEnd, Trim, IsBlank, Strtol;
    assert blanks + "]" + junk == blanks + ("]" + junk);
    TrimMiddle(blanks, "]", junk);
  }

  /** One round of the loop: a number, then the closing bracket or a comma and more. */
  lemma LoopStep(m: Numeral, c: char, more: string, junk: string, acc: seq<int>, max: nat)
    requires m.WellFormed()
    requires if c == ',' then more != "" && more[|more| - 1] == ']' else c == ']' && more == ""
    ensures LongLoop(m.Text() + ([c] + more) + junk, acc, max) ==
      if |acc| >= max then None
      else if c == ',' then LongLoop(more + TrimEnd(junk), acc + [m.Value()], max)
      else Some(acc + [m.Value()])
  {
    hide SkipWs, TrimEnd, Trim, IsBlank, Strtol, Numeral.WellFormed, Numeral.Text, Numeral.Value;
    var t := m.Text() + ([c] + more) + junk;
    var bare := m.(before := "");
    NumeralHead(m);
    var u := bare.Text() + ([c] + more);
    TrimMiddle(m.before, u, junk);
    var r := [c] + (more + TrimEnd(junk));
    assert t == m.before + (u + junk);
    assert u + TrimEnd(junk) == bare.Text() + r;
    ItemStep(bare, r, c);
    assert r[1..] == more + TrimEnd(junk);
  }

  /** A written number starts, after its blanks, with a sign or a digit. */
  lemma NumeralHead(m: Numeral)
    requires m.WellFormed()
    ensures var b := m.(before := "");
      IsBlank(m.before) && b.WellFormed() && b.Value() == m.Value() && m.Text() == m.before + b.Text() &&
      b.Text() != "" && !IsSpace(b.Text()[0]) && b.Text()[0] != ']'
  {
    var b := m.(before := "");
    assert b.Text() == m.sign + (m.digits + m.after);
    assert b.Text()[0] == if m.sign == "" then m.digits[0] else m.sign[0];
  }

  /** One number of the list is read up to the character after its blanks. */
  lemma ItemStep(m: Numeral, r: string, c: char)
    requires m.WellFormed() && Hd(r) == c && c in [',', ']']
    ensures Strtol(m.Text() + r) == Got(m.Value(), m.after + r)
    ensures SkipWs(m.after + r) == r
  {
    SkipWsBlank(m.after, r);
    StrtolReadsNumeral(m, r);
  }

  /** What the loop accepts is a written list. */
  lemma {:induction false} LoopIsItems(t: string, acc: seq<int>, max: nat) returns (l: ListText)
    requires LongLoop(t, acc, max).Some? && |acc| <= max
    ensures l.WellFormed() && t == l.Body() && |acc| + |l.items| <= max
    ensures LongLoop(t, acc, max).value == acc + l.Numbers()
    decreases |t|
  {
    hide LongLoop, ListText.Numbers, ListText.Body, ListText.WellFormed;
    hide Numeral.WellFormed, Numeral.Text, Numeral.Value;
    var item, w, c, more, cut := LoopRound(t, acc, max);
    match item {
      case None =>
        l := NoItem(w, more + cut);
        assert acc + l.Numbers() == acc;
      case Some(m) =>
        var next := acc + [m.Value()];
        if c == ',' {
          var tail := LoopIsItems(more, next, max);
          l := FirstItem(m, tail, cut);
          assert acc + ([m.Value()] + tail.Numbers()) == next + tail.Numbers();
        } else {
          l := OneItem(m, more + cut);
          RegroupTail(m.Text(), "]", "", more, cut);
        }
    }
  }

  lemma NoItem(w: string, junk: string) returns (l: ListText)
    requires IsBlank(w)
    ensures l.WellFormed() && l.items == [] && l.Numbers() == [] && l.Body() == w + "]" + junk
  {
    l := ListText("", [], false, w, junk);
  }

  lemma OneItem(m: Numeral, junk: string) returns (l: ListText)
    requires m.WellFormed()
    ensures l.WellFormed() && |l.items| == 1 && l.Numbers() == [m.Value()] && l.Body() == m.Text() + "]" + junk
  {
    l := ListText("", [m], false, "", junk);
    assert Values([m]) == [m.Value()] + Values([]);
  }

  lemma FirstItem(m: Numeral, tail: ListText, cut: string) returns (l: ListText)
    requires m.WellFormed() && tail.WellFormed()
    ensures l.WellFormed() && |l.items| == 1 + |tail.items|
    ensures l.Numbers() == [m.Value()] + tail.Numbers()
    ensures l.Body() == m.Text() + [','] + tail.Body() + cut
  {
    var rest := ItemsText(tail.items, tail.trailing, tail.blanks);
    l := ListText("", [m] + tail.items, tail.items == [] || tail.trailing, tail.blanks, tail.junk + cut);
    assert l.items[1..] == tail.items;
    assert tail.items == [] ==> ItemsText(tail.items, true, tail.blanks) == rest;
    hide ItemsText, Numeral.Text, Numeral.WellFormed;
    RegroupTail(m.Text(), ",", rest, tail.junk, cut);
  }

  lemma RegroupTail(a: string, b: string, c: string, d: string, e: string)
    ensures a + b + (c + d) + e == (a + (b + c)) + (d + e)
  {
  }

  /** What one successful round of the loop has read. */
  lemma LoopRound(t: string, acc: seq<int>, max: nat)
    returns (item: Option<Numeral>, w: string, c: char, more: string, cut: string)
    requires LongLoop(t, acc, max).Some?
    ensures item.None? ==> IsBlank(w) && t == w + "]" + (more + cut) && LongLoop(t, acc, max) == Some(acc)
    ensures item.Some? ==> item.value.WellFormed() && |acc| < max && t == item.value.Text() + [c] + more + cut
    ensures item.Some? ==> (c == ',' || c == ']') && |more| < |t|
    ensures item.Some? ==>
      var next := acc + [item.value.Value()];
      LongLoop(t, acc, max) == if c == ',' then LongLoop(more, next, max) else Some(next)
  {
    hide SkipWs, TrimEnd, IsBlank, Strtol, Numeral.WellFormed, Numeral.Text, Numeral.Value;
    var u;
    w, u := SplitWs(t);
    var p := Trim(t);
    cut := u[|p|..];
    assert t == w + (p + cut);
    if Hd(p) == ']' {
      item, c, more := None, ']', p[1..];
      assert p == "]" + more;
    } else {
      var n := StrtolIsNumeral(p);
      var v, q := SplitWs(Strtol(p).rest);
      var m := JoinBlanks(w, n, v);
      assert p == n.Text() + (v + q);
      item, c, more := Some(m), q[0], q[1..];
      assert q == [c] + more;
      assert |more| < |q| <= |p| <= |t|;
    }
  }

  lemma JoinBlanks(w: string, n: Numeral, v: string) returns (m: Numeral)
    requires n.WellFormed() && n.after == "" && IsBlank(w) && IsBlank(v)
    ensures m.WellFormed() && m.Value() == n.Value() && m.Text() == w + n.Text() + v
  {
    m := Numeral(w + n.before, n.sign, n.digits, v);
    BlanksJoin(w, n.before);
    hide IsBlank;
    assert n.Text() == n.before + (n.sign + n.digits);
    assert m.Text() == w + (n.before + (n.sign + n.digits)) + v;
  }

  lemma BlanksJoin(a: string, b: string)
    requires IsBlank(a) && IsBlank(b)
    ensures IsBlank(a + b)
  {
  }

  /** A written list of n numbers, however spaced, is accepted exactly when n <= max, and
      then its values come back in order. */
  lemma WrittenListParses(l: ListText, max: nat)
    requires l.WellFormed()
    ensures ParseLongArray(l.Text(), max) == if |l.items| <= max then Some(Values(l.items)) else None
  {
    hide LongLoop, AfterBracket, ItemsText, Values, IsBlank, Numeral.WellFormed;
    AfterBracketSplits(l.lead, l.Body());
    LoopReadsItems(l.items, l.trailing, l.blanks, l.junk, [], max);
    if |l.items| <= max {
      assert [] + Values(l.items) == Values(l.items);
    }
  }

  ghost predicate Writes(l: ListText, value: string, ns: seq<int>, max: nat) {
    l.WellFormed() && l.Text() == value && |l.items| <= max && Values(l.items) == ns
  }

  /** The values accepted are exactly the written lists of at most max numbers. */
  lemma ParsedListIsWritten(value: string, ns: seq<int>, max: nat)
    ensures ParseLongArray(value, max) == Some(ns) <==> exists l :: Writes(l, value, ns, max)
  {
    hide ParseLongArray, Writes;
    if ParseLongArray(value, max) == Some(ns) {
      var l := AcceptedIsWritten(value, max);
    }
    if l :| Writes(l, value, ns, max) {
      WrittenIsAccepted(l, value, ns, max);
    }
  }

  lemma AcceptedIsWritten(value: string, max: nat) returns (l: ListText)
    requires ParseLongArray(value, max).Some?
    ensures Writes(l, value, ParseLongArray(value, max).value, max)
  {
    hide LongLoop, ItemsText, Values, AfterBracket;
    var lead := AfterBracketFinds(value);
    var t := AfterBracket(value).value;
    var list := LoopIsItems(t, [], max);
    l := list.(lead := lead);
    assert [] + Values(l.items) == Values(l.items);
  }

  lemma WrittenIsAccepted(l: ListText, value: string, ns: seq<int>, max: nat)
    requires Writes(l, value, ns, max)
    ensures ParseLongArray(value, max) == Some(ns)
  {
    WrittenListParses(l, max);
  }

  /** `trim` in place: the text s[p..e] loses its blanks at both ends. */
  method TrimInPlace(s: string, p: nat, e: nat) returns (p': nat, e': nat)
    requires p <= e <= |s|
    ensures p <= p' <= e' <= e && s[p'..e'] == Trim(s[p..e])
  {
    var t := s[..e];
    assert t[p..] == s[p..e];
    p' := SkipSpaces(t, p);
    assert t[p'..] == s[p'..e];
    e' := e;
    while e' > p' && IsSpace(s[e' - 1])
      invariant p' <= e' <= e
      invariant TrimEnd(s[p'..e']) == TrimEnd(s[p'..e])
    {
      assert s[p'..e'][..e' - p' - 1] == s[p'..e' - 1];
      e' := e' - 1;
    }
  }

  /** `strchr` for the opening bracket: the position after it, if there is one. */
  method FindBracket(value: string) returns (p: Option<nat>)
    ensures p.Some? ==> p.value <= |value|
    ensures AfterBracket(value) == if p.Some? then Some(value[p.value..]) else None
  {
    var i := 0;
    while i < |value| && value[i] != '['
      invariant 0 <= i <= |value|
      invariant AfterBracket(value[i..]) == AfterBracket(value)
    {
      assert value[i..][1..] == value[i + 1..];
      i := i + 1;
    }
    if i == |value| {
      return None;
    }
    assert value[i..][1..] == value[i + 1..];
    return Some(i + 1);
  }

  /** One number of the list, and the blanks after it: the text value[p..e] is trimmed. */
  method ReadLong(value: string, p: nat, e: nat) returns (n: Option<int>, q: nat)
    requires p <= e <= |value|
    ensures p <= q <= e
    ensures n.Some? <==> Strtol(value[p..e]).Got?
    ensures n.Some? ==> n.value == Strtol(value[p..e]).value && value[q..e] == SkipWs(Strtol(value[p..e]).rest)
  {
    hide SkipWs, Strtol;
    var text := value[p..e];
    match Strtol(text) {
      case Fail => return None, p;
      case Got(m, rest) =>
        StrtolEnd(text);
        var r := e - |rest|;
        var upTo := value[..e];
        assert upTo[r..] == value[r..e] == rest;
        q := SkipSpaces(upTo, r);
        assert upTo[q..] == value[q..e];
        return Some(m), q;
    }
  }

  /** `parse_long_array`; the maximal count is the room in out. */
  method ParseLongs(value: string, out: array<int>) returns (ok: bool, count: nat)
    modifies out
    ensures ok == ParseLongArray(value, out.Length).Some?
    ensures ok ==> count <= out.Length && out[..count] == ParseLongArray(value, out.Length).value
  {
    hide SkipWs, Strtol, Trim, AfterBracket;
    count := 0;
    var start := FindBracket(value);
    if start.None? {
      return false, count;
    }
    var p, e := start.value, |value|;
    assert value[p..e] == value[p..];
    ghost var max := out.Length;
    while p < e
      invariant p <= e <= |value|
      invariant count <= max
      invariant LongLoop(value[p..e], out[..count], max) == ParseLongArray(value, max)
      decreases e - p
    {
      ghost var t, was := value[p..e], out[..count];
      p, e := TrimInPlace(value, p, e);
      if p < e && value[p] == ']' {
        return true, count;
      }
      if count >= out.Length {
        return false, count;
      }
      ghost var text := value[p..e];
      StrtolShrinks(text);
      var n, q := ReadLong(value, p, e);
      if n.None? {
        return false, count;
      }
      out[count] := n.value;
      count := count + 1;
      assert out[..count] == was + [n.value];
      if !(q < e && value[q] == ',') {
        return q < e && value[q] == ']', count;
      }
      p := q + 1;
      assert value[p..e] == value[q..e][1..];
    }
    return false, count;
  }

  lemma StrtolEnd(t: string)
    requires Strtol(t).Got?
    ensures IsSuffix(Strtol(t).rest, t)
  {
    var m := StrtolIsNumeral(t);
  }
}
