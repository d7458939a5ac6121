/** From the text of the configuration to who is an administrator. */
module Allowlist {
  import opened Bytes
  import opened Config
  import opened ConfigText

  const MAX_ADMIN_IDS: nat := 16

  /** A number is written in a list. */
  predicate Lists(l: ListText, n: int) {
    l.WellFormed() && exists i | 0 <= i < |l.items| :: l.items[i].Value() == n
  }

  /** With the allowlist required and read from two written lists, a peer is an admin
      exactly when its user is written in the first or its group in the second; lists of
      more than 16 numbers are refused. */
  lemma AdminsAreWritten(cfg: Config, users: ListText, groups: ListText, who: Identity)
    requires users.WellFormed() && groups.WellFormed() && cfg.requireAllowlist
    requires ParseLongArray(users.Text(), MAX_ADMIN_IDS) == Some(cfg.uids)
    requires ParseLongArray(groups.Text(), MAX_ADMIN_IDS) == Some(cfg.gids)
    ensures IsAdmin(cfg, who) <==> Lists(users, who.uid) || Lists(groups, who.gid)
    ensures |cfg.uids| <= 16 && |cfg.gids| <= 16
  {
    hide ParseLongArray, ListText.Text, ListText.WellFormed, Numeral.Value;
    WrittenListParses(users, MAX_ADMIN_IDS);
    WrittenListParses(groups, MAX_ADMIN_IDS);
    InWrittenList(users, who.uid);
    InWrittenList(groups, who.gid);
  }

  lemma InWrittenList(l: ListText, n: int)
    requires l.WellFormed()
    ensures n in Values(l.items) <==> Lists(l, n)
  {
    var ns := Values(l.items);
    if n in ns {
      var i :| 0 <= i < |ns| && ns[i] == n;
      assert l.items[i].Value() == n;
    }
    if Lists(l, n) {
      var i :| 0 <= i < |l.items| && l.items[i].Value() == n;
      assert ns[i] == n;
    }
  }

  /** Without a required allowlist everyone is an admin; with an empty one nobody is. */
  lemma AdminsWithoutLists(cfg: Config, who: Identity)
    ensures !cfg.requireAllowlist ==> IsAdmin(cfg, who)
    ensures cfg.requireAllowlist && cfg.uids == [] && cfg.gids == [] ==> !IsAdmin(cfg, who)
  {}
}
