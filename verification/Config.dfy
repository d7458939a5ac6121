/** The part of the configuration that the handlers read, and who is an admin. */
module Config {

  /** Peer credentials; two identities are the same when all three numbers are. */
  datatype Identity = Identity(uid: int, gid: int, pid: int)

  datatype Config = Config(sysRead: bool, ttl: int, requireAllowlist: bool, uids: seq<int>, gids: seq<int>)

  predicate IsAdmin(cfg: Config, who: Identity) {
    !cfg.requireAllowlist || who.uid in cfg.uids || who.gid in cfg.gids
  }

  /** `anything_config_identity_is_admin` */
  method IdentityIsAdmin(cfg: Config, who: Identity) returns (yes: bool)
    ensures yes == IsAdmin(cfg, who)
  {
    if !cfg.requireAllowlist {
      return true;
    }
    for i := 0 to |cfg.uids|
      invariant who.uid !in cfg.uids[..i]
    {
      if cfg.uids[i] == who.uid {
        return true;
      }
    }
    for i := 0 to |cfg.gids|
      invariant who.gid !in cfg.gids[..i]
    {
      if cfg.gids[i] == who.gid {
        return true;
      }
    }
    assert cfg.uids[..|cfg.uids|] == cfg.uids && cfg.gids[..|cfg.gids|] == cfg.gids;
    return false;
  }
}
