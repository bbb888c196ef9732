/**
 Which permissions a node takes on, and shares through, each of its children:
 the default implementations of .bdrv_child_perm().
 */
module Permissions {
  import opened BlockGraph

  datatype RoleFlag = Filtered | Cow | Metadata | Data

  type Role = set<RoleFlag>

  /** What the permission code reads about a node. */
  datatype NodeInfo = NodeInfo(
    hasDriver: bool,
    writable: bool,       // bdrv_is_writable_after_reopen
    inactive: bool,       // BDRV_O_INACTIVE
    noIo: bool,           // BDRV_O_NO_IO
    aligned: bool,        // image size is a multiple of the request alignment
    forceShare: bool
  )

  /** Permissions taken and permissions left to others. */
  datatype Claim = Claim(perm: Perms, shared: Perms)

  // DEFAULT_PERM_PASSTHROUGH is all four permissions, so nothing is left for DEFAULT_PERM_UNCHANGED
  const PASSTHROUGH: Perms := {ConsistentRead, Write, WriteUnchanged, Resize}
  const UNCHANGED: Perms := ALL_PERMS - PASSTHROUGH

  function FilterDefaultPerms(c: Claim): Claim {
    Claim(c.perm * PASSTHROUGH, (c.shared * PASSTHROUGH) + UNCHANGED)
  }

  function DefaultPermsForCow(info: NodeInfo, c: Claim): Claim {
    var shared := (if Write in c.shared then {Write, Resize} else {}) + {ConsistentRead, WriteUnchanged};
    Claim(c.perm * {ConsistentRead}, if info.inactive then shared + {Write, Resize} else shared)
  }

  function WithMetadata(info: NodeInfo, c: Claim): Claim {
    var perm := if info.writable then c.perm + {Write, Resize} else c.perm;
    Claim(if info.noIo then perm else perm + {ConsistentRead}, c.shared - {Write, Resize})
  }

  function WithData(c: Claim): Claim {
    var perm := if WriteUnchanged in c.perm then c.perm + {Write} else c.perm;
    Claim(if Write in perm then perm + {Resize} else perm, c.shared - {Resize})
  }

  function DefaultPermsForStorage(info: NodeInfo, role: Role, c: Claim): Claim {
    var c0 := FilterDefaultPerms(c);
    var c1 := if Metadata in role then WithMetadata(info, c0) else c0;
    var c2 := if Data in role then WithData(c1) else c1;
    if info.inactive then c2.(shared := c2.shared + {Write, Resize}) else c2
  }

  /** The combinations of roles bdrv_default_perms does not assert against. */
  predicate RoleOk(role: Role) {
    if Filtered in role then role !! {Data, Metadata, Cow}
    else if Cow in role then role !! {Data, Metadata}
    else Metadata in role || Data in role
  }

  function DefaultPerms(info: NodeInfo, role: Role, c: Claim): Claim
    requires RoleOk(role)
  {
    if Filtered in role then FilterDefaultPerms(c)
    else if Cow in role then DefaultPermsForCow(info, c)
    else DefaultPermsForStorage(info, role, c)
  }

  /** Membership of each permission, for every role: what is taken on the child and what is left to others. */
  lemma DefaultPermsAre(info: NodeInfo, role: Role, c: Claim)
    requires RoleOk(role)
    ensures var d := DefaultPerms(info, role, c);
      // a filter passes everything on
      && (Filtered in role ==> d == c)
      // a backing file is read for the parent and never written
      && (Cow in role ==>
            && d.perm == c.perm * {ConsistentRead}
            && ConsistentRead in d.shared && WriteUnchanged in d.shared
            && (Write in d.shared <==> Write in c.shared || info.inactive)
            && (Resize in d.shared <==> Write in c.shared || info.inactive))
      // storage: nothing taken is dropped, nothing is shared that the parent does not share, unless inactive
      && (role !! {Filtered, Cow} ==>
            && c.perm <= d.perm && d.shared - c.shared <= (if info.inactive then {Write, Resize} else {})
            && (ConsistentRead in d.perm <==> ConsistentRead in c.perm || (Metadata in role && !info.noIo))
            && (Write in d.perm <==>
                  || Write in c.perm
                  || (Metadata in role && info.writable)
                  || (Data in role && WriteUnchanged in c.perm))
            && (WriteUnchanged in d.perm <==> WriteUnchanged in c.perm)
            && (Resize in d.perm <==>
                  || Resize in c.perm
                  || (Metadata in role && info.writable)
                  || (Data in role && (Write in c.perm || WriteUnchanged in c.perm)))
            && (ConsistentRead in d.shared <==> ConsistentRead in c.shared)
            && (WriteUnchanged in d.shared <==> WriteUnchanged in c.shared)
            && (Write in d.shared <==> info.inactive || (Write in c.shared && Metadata !in role))
            && (Resize in d.shared <==> info.inactive))
  {
    AllPerms();
    if Filtered in role {
      assert DefaultPerms(info, role, c).perm == c.perm;
      assert DefaultPerms(info, role, c).shared == c.shared;
    }
  }

  lemma AllPerms()
    ensures forall p: Perm :: p in ALL_PERMS
  {
    forall p: Perm
      ensures p in ALL_PERMS
    {
      match p
      case ConsistentRead =>
      case Write =>
      case WriteUnchanged =>
      case Resize =>
    }
  }

  /** `c` asks for no more and leaves no less to others than `d`. */
  predicate Looser(c: Claim, d: Claim) {
    c.perm <= d.perm && d.shared <= c.shared
  }

  /** A parent that asks for less makes its children ask for less, whatever the role. */
  lemma DefaultPermsMonotone(info: NodeInfo, role: Role, c: Claim, d: Claim)
    requires RoleOk(role) && Looser(c, d)
    ensures Looser(DefaultPerms(info, role, c), DefaultPerms(info, role, d))
  {
  }
}
