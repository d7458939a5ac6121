/** Members that the request parser ignores: which values it really ignores, and which
    make it refuse the whole request. */
module RpcIgnored {
  import opened Bytes
  import opened JsonString
  import opened JsonScan
  import opened JsonTree
  import opened RpcGrammar
  import opened RpcMembers
  import opened RpcParse

  /** The document with the text of a member's value replaced, whatever the new text is. */
  function WithText(d: Document, i: nat, raw: string): Document
    requires i < |d.members|
  {
    d.(members := d.members[i := d.members[i].(value := Scalar(raw))])
  }

  /** The text of a list of members only depends on the texts of their values. */
  lemma {:induction false} SameText(ms: seq<Member>, i: nat, v: Value, w: Value, closed: bool, end: string)
    requires i < |ms| && ValueText(v) == ValueText(w)
    ensures MembersText(ms[i := ms[i].(value := v)], closed, end)
         == MembersText(ms[i := ms[i].(value := w)], closed, end)
  {
    hide ValueText;
    var a, b := ms[i := ms[i].(value := v)], ms[i := ms[i].(value := w)];
    if i == 0 {
      assert a[1..] == b[1..];
    } else {
      assert a[1..] == ms[1..][i - 1 := ms[i].(value := v)] && b[1..] == ms[1..][i - 1 := ms[i].(value := w)];
      SameText(ms[1..], i - 1, v, w, closed, end);
    }
  }

  lemma {:induction false} MembersTextSplits(ms: seq<Member>, i: nat, closed: bool, end: string)
    requires i < |ms|
    ensures MembersText(ms, closed, end) == MembersText(ms[..i], false, MembersText(ms[i..], closed, end))
  {
    hide MemberText;
    if i == 0 {
      assert ms[..0] == [] && ms[0..] == ms;
    } else {
      assert ms[..i][1..] == ms[1..][..i - 1] && ms[i..] == ms[1..][i - 1..];
      MembersTextSplits(ms[1..], i - 1, closed, end);
    }
  }

  lemma {:induction false} FreshPrefix(ms: seq<Member>, i: nat, f: Fields)
    requires i <= |ms| && Fresh(ms, f)
    ensures Fresh(ms[..i], f)
  {
    if i > 0 {
      assert ms[..i][1..] == ms[1..][..i - 1];
      FreshPrefix(ms[1..], i - 1, Apply(ms[0], f));
    }
  }

  /** An object of 1024 bytes or more as an ignored value stops the member loop. */
  lemma LargeObjectFails(m: Member, j: Json, rest: string, f: Fields)
    requires RequestMember(m) && RoleOf(m.key) == Extra && m.value == Scalar("")
    requires Valid(j) && j.Dict? && !FitsSkipper(j)
    ensures TakeMembers(MemberText(m.(value := Scalar(JsonText(j)))) + rest, f) == Fail
  {
    hide TakeKey, TakeMembers, TakeMember, SkipValue, JsonText, Valid, RoleOf;
    var big := m.(value := Scalar(JsonText(j)));
    var u := JsonText(j) + (m.trail + rest);
    assert MemberText(big) + rest == Quote(m.key) + (m.gap + ":") + m.pad + u;
    DictStarts(j, m.trail + rest);
    TakeKeyOfText(m, u);
    TreeIsSkipped(j, m.trail + rest);
    TakeMemberBy(MemberText(big) + rest, f, m.key, u);
    MemberStarts(big, rest);
    TakeMembersFails(MemberText(big) + rest, f);
  }

  lemma DictStarts(j: Json, rest: string)
    requires j.Dict?
    ensures Hd(JsonText(j) + rest) == '{'
  {}

  lemma LargeObjectStopsDocument(d: Document, i: nat, j: Json)
    requires WellFormedDocument(d) && i < |d.members| && RoleOf(d.members[i].key) == Extra
    requires Valid(j) && j.Dict? && !FitsSkipper(j)
    ensures Parse(DocumentText(WithText(d, i, JsonText(j)))) == None
  {
    hide TakeMembers, MembersText, MemberText, JsonText, Fresh, Valid, Count, RoleOf;
    var e := WithText(d, i, JsonText(j));
    var ms, end := e.members, d.trail + d.junk;
    OpenOfText(e, MembersText(ms, d.closed, end));
    MembersTextSplits(ms, i, d.closed, end);
    assert ms[..i] == d.members[..i];
    MembersMeaning(d.members);
    FreshPrefix(d.members, i, NOTHING);
    var rest := Separator(ms[i..], d.closed) + MembersText(ms[i..][1..], d.closed, end);
    FirstMemberText(ms[i..], d.closed, end);
    MemberStarts(ms[i], rest);
    var more := MembersText(ms[i..], d.closed, end);
    TakeMembersThenMore(d.members[..i], more, NOTHING);
    var bare := d.members[i].(value := Scalar(""), trail := "");
    BareIsRequestMember(d.members[i]);
    LargeObjectFails(bare, j, d.members[i].trail + rest, ApplyAll(d.members[..i], NOTHING));
    MoveTrail(d.members[i], JsonText(j), rest);
  }

  lemma FirstMemberText(ms: seq<Member>, closed: bool, end: string)
    requires ms != []
    ensures MembersText(ms, closed, end)
         == MemberText(ms[0]) + (Separator(ms, closed) + MembersText(ms[1..], closed, end))
  {
    hide MemberText;
  }

  lemma BareIsRequestMember(m: Member)
    requires RequestMember(m) && RoleOf(m.key) == Extra
    ensures RequestMember(m.(value := Scalar(""), trail := ""))
  {}

  lemma MoveTrail(m: Member, raw: string, rest: string)
    ensures MemberText(m.(value := Scalar(raw))) + rest
         == MemberText(m.(value := Scalar(raw), trail := "")) + (m.trail + rest)
  {}

  /** Replacing the value of an unreserved member by any nested value: the result stays
      the same, except that an object of 1024 bytes or more, and nothing else, makes the
      parser refuse the request. */
  lemma IgnoredTree(d: Document, i: nat, j: Json)
    requires WellFormedDocument(d) && i < |d.members| && RoleOf(d.members[i].key) == Extra
    requires Valid(j) && !j.Padded?
    ensures Parse(DocumentText(WithText(d, i, JsonText(j))))
         == if FitsSkipper(j) then Parse(DocumentText(d)) else None
  {
    hide Parse, MembersText, JsonText, Valid, WellFormedValue, Count, RoleOf, WellFormedDocument;
    if FitsSkipper(j) {
      var v := TreeIsValue(j);
      NotEmpty(j);
      SameText(d.members, i, v, Scalar(JsonText(j)), d.closed, d.trail + d.junk);
      ExtraValueIgnored(d, i, v);
    } else {
      LargeObjectStopsDocument(d, i, j);
    }
  }

  lemma NotEmpty(j: Json)
    requires Valid(j) && !j.Padded?
    ensures JsonText(j) != ""
  {}
}
