/** JSON values as trees, as sections 3 to 5 of RFC 8259 nest them, and how the bracket
    matcher sees their text.  The matcher counts one kind of bracket and knows nothing of
    the other, yet no nesting of arrays and objects confuses it. */
module JsonTree {
  import opened Bytes
  import opened JsonString
  import opened JsonScan
  import opened RpcGrammar

  /** A value with any blanks around it; a word is a number or one of the three names. */
  datatype Json =
    | Text(text: string)
    | Word(raw: string)
    | Padded(before: string, inner: Json, after: string)
    | Array(open: string, items: seq<Json>)
    | Dict(open: string, fields: seq<Field>)

  datatype Field = Field(before: string, key: string, after: string, value: Json)

  predicate WordChar(c: char) {
    c != '\0' && !IsSpace(c) && c !in {'"', '{', '}', '[', ']', ','}
  }

  predicate IsWord(raw: string) {
    raw != "" && forall i | 0 <= i < |raw| :: WordChar(raw[i])
  }

  predicate Valid(j: Json) {
    match j
    case Text(text) => Encodable(text)
    case Word(raw) => IsWord(raw)
    case Padded(before, inner, after) => IsBlank(before) && Valid(inner) && IsBlank(after)
    case Array(open, items) => IsBlank(open) && forall i | 0 <= i < |items| :: Valid(items[i])
    case Dict(open, fields) => IsBlank(open) && forall i | 0 <= i < |fields| :: ValidField(fields[i])
  }

  predicate ValidField(f: Field) {
    IsBlank(f.before) && Encodable(f.key) && IsBlank(f.after) && Valid(f.value)
  }

  /** The text of a tree. */
  function JsonText(j: Json): string {
    match j
    case Text(text) => Quote(text)
    case Word(raw) => raw
    case Padded(before, inner, after) => before + JsonText(inner) + after
    case Array(open, items) => "[" + (open + (ItemsText(items) + "]"))
    case Dict(open, fields) => "{" + (open + (FieldsText(fields) + "}"))
  }

  function ItemsText(items: seq<Json>): string {
    if items == [] then ""
    else JsonText(items[0]) + (if |items| == 1 then "" else "," + ItemsText(items[1..]))
  }

  function FieldsText(fields: seq<Field>): string {
    if fields == [] then ""
    else
      var f := fields[0];
      (f.before + Quote(f.key) + f.after) + (":" + JsonText(f.value)) +
        (if |fields| == 1 then "" else "," + FieldsText(fields[1..]))
  }

  // ---- trees are runs of tokens that leave every depth alone --------------------------

  /** ks is the text t in tokens, and reading it changes neither bracket depth in the end
      nor closes anything on the way. */
  ghost predicate Level(ks: seq<Token>, t: string) {
    && ValidTokens(ks) && TokensText(ks) == t
    && forall more, depth, b | depth > 0 :: Closes(ks + more, depth, b) == Closes(more, depth, b)
  }

  lemma LevelEmpty()
    ensures Level([], "")
  {
    forall more: seq<Token>, depth, b | depth > 0 ensures Closes([] + more, depth, b) == Closes(more, depth, b) {
      assert [] + more == more;
    }
  }

  lemma LevelOne(k: Token)
    requires ValidToken(k) && Delta(k, Brace) == 0 && Delta(k, Square) == 0
    ensures Level([k], TokenText(k))
  {
    var ks := [k];
    assert ks[1..] == [] && TokensText(ks) == TokenText(k) + "";
    forall more, depth, b: Bracket | depth > 0 ensures Closes(ks + more, depth, b) == Closes(more, depth, b) {
      assert (ks + more)[1..] == more;
      assert Delta(k, b) == 0 by {
        if b.Brace? {}
      }
    }
  }

  lemma {:induction false} TokensTextAppend(a: seq<Token>, b: seq<Token>)
    ensures TokensText(a + b) == TokensText(a) + TokensText(b)
  {
    if a == [] {
      assert a + b == b;
    } else {
      assert (a + b)[1..] == a[1..] + b;
      TokensTextAppend(a[1..], b);
    }
  }

  lemma LevelAppend(a: seq<Token>, t: string, b: seq<Token>, u: string)
    requires Level(a, t) && Level(b, u)
    ensures Level(a + b, t + u)
  {
    hide Closes, TokensText, ValidToken;
    TokensTextAppend(a, b);
    forall more, depth, k | depth > 0 ensures Closes(a + b + more, depth, k) == Closes(more, depth, k) {
      assert a + b + more == a + (b + more);
    }
  }

  /** Wrapping level tokens in a pair of brackets of either kind gives level tokens. */
  lemma LevelWrap(b: Bracket, ks: seq<Token>, t: string)
    requires Level(ks, t)
    ensures var inner := ks + [Chr(b.Close())];
      ValidTokens(inner) && TokensText(inner) == t + [b.Close()] && Closes(inner, 1, b)
    ensures Level([Chr(b.Open())] + (ks + [Chr(b.Close())]), [b.Open()] + (t + [b.Close()]))
  {
    var open, close := Chr(b.Open()), Chr(b.Close());
    var inner := ks + [close];
    assert [close][1..] == [] && TokensText([close]) == [b.Close()] + "";
    TokensTextAppend(ks, [close]);
    assert Closes(inner, 1, b) == Closes([close], 1, b) == Closes([close][1..], 0, b);
    var all := [open] + inner;
    assert all[1..] == inner;
    hide TokensText, ValidToken;
    forall more, depth, k | depth > 0 ensures Closes(all + more, depth, k) == Closes(more, depth, k) {
      assert (all + more)[1..] == ks + ([close] + more);
      assert ([close] + more)[1..] == more;
      assert Delta(open, k) == -Delta(close, k) && Delta(open, k) >= 0;
    }
  }

  lemma {:induction false} LevelChars(t: string) returns (ks: seq<Token>)
    requires forall i | 0 <= i < |t| :: t[i] !in {'\0', '"', '{', '}', '[', ']'}
    ensures Level(ks, t)
  {
    if t == "" {
      LevelEmpty();
      ks := [];
    } else {
      var tail := LevelChars(t[1..]);
      LevelOne(Chr(t[0]));
      LevelAppend([Chr(t[0])], [t[0]], tail, t[1..]);
      ks := [Chr(t[0])] + tail;
      assert t == [t[0]] + t[1..];
    }
  }

  lemma LevelBlank(t: string) returns (ks: seq<Token>)
    requires IsBlank(t)
    ensures Level(ks, t)
  {
    ks := LevelChars(t);
  }

  /** Every tree is level. */
  lemma {:induction false} LevelTree(j: Json) returns (ks: seq<Token>)
    requires Valid(j)
    ensures Level(ks, JsonText(j))
    decreases j
  {
    hide Level, IsBlank, Encodable;
    match j
    case Text(text) =>
      LevelOne(Str(text));
      ks := [Str(text)];
    case Word(raw) =>
      ks := LevelChars(raw);
    case Padded(before, inner, after) =>
      var a := LevelBlank(before);
      var b := LevelTree(inner);
      var c := LevelBlank(after);
      LevelAppend(a, before, b, JsonText(inner));
      LevelAppend(a + b, before + JsonText(inner), c, after);
      ks := a + b + c;
    case Array(_, _) =>
      var inner := LevelInside(j);
      ks := [Chr('[')] + (inner + [Chr(']')]);
      LevelWrap(Square, inner, Inside(j));
      assert [']'] == "]" && ['['] == "[";
      InsideText(j);
    case Dict(_, _) =>
      var inner := LevelInside(j);
      ks := [Chr('{')] + (inner + [Chr('}')]);
      LevelWrap(Brace, inner, Inside(j));
      assert ['}'] == "}" && ['{'] == "{";
      InsideText(j);
  }

  /** What stands between the brackets of an array or an object. */
  function Inside(j: Json): string
    requires j.Array? || j.Dict?
  {
    j.open + if j.Array? then ItemsText(j.items) else FieldsText(j.fields)
  }

  lemma InsideText(j: Json)
    requires j.Array? || j.Dict?
    ensures JsonText(j) == if j.Array? then "[" + (Inside(j) + "]") else "{" + (Inside(j) + "}")
  {
    hide ItemsText, FieldsText;
    assert j.Array? ==> j.open + (ItemsText(j.items) + "]") == Inside(j) + "]";
    assert j.Dict? ==> j.open + (FieldsText(j.fields) + "}") == Inside(j) + "}";
  }

  lemma {:induction false} LevelInside(j: Json) returns (ks: seq<Token>)
    requires Valid(j) && (j.Array? || j.Dict?)
    ensures Level(ks, Inside(j))
    decreases j, 0
  {
    hide Level, IsBlank, Encodable;
    var a := LevelBlank(j.open);
    var b;
    if j.Array? {
      b := LevelItems(j.items);
      LevelAppend(a, j.open, b, ItemsText(j.items));
    } else {
      b := LevelFields(j.fields);
      LevelAppend(a, j.open, b, FieldsText(j.fields));
    }
    ks := a + b;
  }

  lemma {:induction false} LevelItems(items: seq<Json>) returns (ks: seq<Token>)
    requires forall i | 0 <= i < |items| :: Valid(items[i])
    ensures Level(ks, ItemsText(items))
    decreases items
  {
    hide Level, Valid, JsonText;
    if items == [] {
      LevelEmpty();
      ks := [];
    } else {
      ks := LevelTree(items[0]);
      if |items| == 1 {
        assert JsonText(items[0]) + "" == JsonText(items[0]);
      } else {
        var more := LevelItems(items[1..]);
        ks := LevelComma(ks, JsonText(items[0]), more, ItemsText(items[1..]));
      }
    }
  }

  lemma LevelComma(a: seq<Token>, t: string, b: seq<Token>, u: string) returns (ks: seq<Token>)
    requires Level(a, t) && Level(b, u)
    ensures Level(ks, t + ("," + u))
  {
    LevelOne(Chr(','));
    hide Level;
    LevelAppend([Chr(',')], ",", b, u);
    LevelAppend(a, t, [Chr(',')] + b, "," + u);
    ks := a + ([Chr(',')] + b);
  }

  lemma {:induction false} LevelFields(fields: seq<Field>) returns (ks: seq<Token>)
    requires forall i | 0 <= i < |fields| :: ValidField(fields[i])
    ensures Level(ks, FieldsText(fields))
    decreases fields
  {
    hide Level, Valid, JsonText;
    if fields == [] {
      LevelEmpty();
      ks := [];
    } else {
      var f := fields[0];
      var v := LevelTree(f.value);
      ks := LevelField(f, v);
      var t := (f.before + Quote(f.key) + f.after) + (":" + JsonText(f.value));
      if |fields| == 1 {
        assert t + "" == t;
      } else {
        var more := LevelFields(fields[1..]);
        ks := LevelComma(ks, t, more, FieldsText(fields[1..]));
      }
    }
  }

  lemma LevelField(f: Field, v: seq<Token>) returns (ks: seq<Token>)
    requires ValidField(f) && Level(v, JsonText(f.value))
    ensures Level(ks, (f.before + Quote(f.key) + f.after) + (":" + JsonText(f.value)))
  {
    LevelOne(Str(f.key));
    LevelOne(Chr(':'));
    hide Level, JsonText, Quote;
    var a := LevelBlank(f.before);
    var b := LevelBlank(f.after);
    LevelAppend(a, f.before, [Str(f.key)], Quote(f.key));
    LevelAppend(a + [Str(f.key)], f.before + Quote(f.key), b, f.after);
    LevelAppend([Chr(':')], ":", v, JsonText(f.value));
    ks := (a + [Str(f.key)] + b) + ([Chr(':')] + v);
    LevelAppend(a + [Str(f.key)] + b, f.before + Quote(f.key) + f.after, [Chr(':')] + v, ":" + JsonText(f.value));
  }

  // ---- trees as values -----------------------------------------------------------------

  /** Objects are copied into the skipper's 1024 byte scratch buffer; arrays, and objects
      inside arrays, are not. */
  predicate FitsSkipper(j: Json) {
    j.Dict? ==> |JsonText(j)| < MAX_PARAMS
  }

  /** Every tree that is not padded and, if an object, below 1024 bytes is a well-formed
      member value; so the round trip of a request holds with any such trees as params
      and as values of the members that the parser ignores. */
  lemma TreeIsValue(j: Json) returns (v: Value)
    requires Valid(j) && !j.Padded? && FitsSkipper(j)
    ensures WellFormedValue(v) && ValueText(v) == JsonText(j)
    ensures j.Dict? ==> v.ObjV?
  {
    if j.Text? {
      v := StrV(j.text);
    } else if j.Word? {
      v := Scalar(j.raw);
    } else {
      var ks := LevelInside(j);
      InsideText(j);
      hide Closes, TokensText, ValidToken, JsonText;
      if j.Array? {
        LevelWrap(Square, ks, Inside(j));
        v := ArrV(ks + [Chr(']')]);
        assert [Square.Close()] == "]";
      } else {
        LevelWrap(Brace, ks, Inside(j));
        v := ObjV(ks + [Chr('}')]);
        assert [Brace.Close()] == "}";
      }
    }
  }

  /** The object copier takes exactly the text of an object tree of any size and depth. */
  lemma DictIsSlice(j: Json, rest: string)
    requires Valid(j) && j.Dict?
    ensures ObjectSlice(JsonText(j) + rest) == Got(JsonText(j), rest)
  {
    hide JsonText, Valid, MatchClose, Closes, ValidTokens, TokensText;
    DictIsObjectText(j);
    ObjectIsSlice(JsonText(j), rest);
  }

  lemma DictIsObjectText(j: Json)
    requires Valid(j) && j.Dict?
    ensures IsObjectText(JsonText(j))
  {
    hide JsonText, Closes, ValidToken, TokensText;
    var ks := LevelInside(j);
    InsideText(j);
    LevelWrap(Brace, ks, Inside(j));
    assert [Brace.Close()] == "}";
    var inner := ks + [Chr('}')];
    assert "{" + TokensText(inner) == JsonText(j);
  }

  /** The skipper passes a nested value exactly, and fails on exactly the objects of 1024
      bytes or more. */
  lemma TreeIsSkipped(j: Json, rest: string)
    requires Valid(j) && (j.Text? || j.Array? || j.Dict?)
    ensures SkipValue(JsonText(j) + rest) == if FitsSkipper(j) then Some(rest) else None
  {
    hide MatchClose, SkipValue, JsonText, WellFormedValue;
    if FitsSkipper(j) {
      var v := TreeIsValue(j);
      TreeIsBracketed(j, v);
      SkipBracketedValue(v, rest);
    } else {
      var t := JsonText(j) + rest;
      DictIsSlice(j, rest);
      InsideText(j);
      assert Hd(t) == '{';
      SkipValueCases(t);
    }
  }

  lemma TreeIsBracketed(j: Json, v: Value)
    requires (j.Text? || j.Array? || j.Dict?) && WellFormedValue(v) && ValueText(v) == JsonText(j)
    ensures !v.Scalar?
  {
    assert Hd(JsonText(j)) in {'"', '[', '{'};
  }
}
