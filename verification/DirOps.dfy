/** The directory system calls of kernel/sysfile.c on top of kernel/fs.c, each as one transaction. */
module DirOps {
  import opened Params
  import opened DirLinks

  /** Inodes with their directory entries, and how often each is referred to from memory. */
  class FileTree {
    var nodes: seq<Node>
    var refs: seq<nat>
    ghost var at: map<nat, (nat, nat)>

    ghost predicate Valid()
      reads this
    {
      TreeOk(nodes, refs, at)
    }

    predicate IsDir(d: nat)
      reads this
    {
      d < |nodes| && nodes[d].typ == T_DIR
    }

    /** The file system mkfs starts from: a root directory that names itself twice. */
    constructor (ninodes: nat)
      requires ninodes > ROOTINO
      ensures Valid() && |nodes| == ninodes && refs == seq(ninodes, _ => 0)
      ensures nodes[ROOTINO].typ == T_DIR && nodes[ROOTINO].nlink == 1
      ensures NameMap(nodes[ROOTINO].ents) == map["." := ROOTINO, ".." := ROOTINO]
      ensures forall i :: 0 <= i < |nodes| && i != ROOTINO ==> nodes[i] == FREE
    {
      var root := Node(T_DIR, 1, [Dirent(ROOTINO, "."), Dirent(ROOTINO, "..")]);
      nodes := seq(ninodes, i => if i == ROOTINO then root else FREE);
      refs := seq(ninodes, _ => 0);
      at := map[];
      new;
      FreshGood(nodes);
      NewDirMap(ROOTINO, ROOTINO);
    }

    /** dirlookup(): the inode the name map has for the name, and where; 0 if there is none. */
    method Dirlookup(d: nat, name: string) returns (inum: nat, k: nat)
      requires IsDir(d) && NamesUnique(nodes[d].ents)
      ensures Short(name) in NameMap(nodes[d].ents) <==> inum != 0
      ensures inum != 0 ==>
                NameMap(nodes[d].ents)[Short(name)] == inum && k < |nodes[d].ents| &&
                nodes[d].ents[k] == Dirent(inum, Short(name))
      ensures inum == 0 ==> Unnamed(nodes[d].ents, Short(name))
    {
      var ents := nodes[d].ents;
      k := 0;
      while k < |ents|
        invariant 0 <= k <= |ents|
        invariant forall j :: 0 <= j < k && ents[j].inum != 0 ==> ents[j].name != Short(name)
      {
        if ents[k].inum != 0 && ents[k].name == Short(name) {
          NameMapAt(ents, k);
          return ents[k].inum, k;
        }
        k := k + 1;
      }
      inum := 0;
      if Short(name) in NameMap(ents) {
        var j := NameMapFrom(ents, Short(name));
      }
    }

    /** dirlink(): binds a name that is free, in the first free slot; `space` says whether the directory can grow. */
    method Dirlink(d: nat, name: string, inum: nat, space: bool) returns (ok: bool, k: nat)
      requires IsDir(d) && NamesUnique(nodes[d].ents) && inum != 0
      modifies this`nodes
      ensures ok <==> Short(name) !in NameMap(old(nodes)[d].ents) && (space || HasHole(old(nodes)[d].ents))
      ensures !ok ==> nodes == old(nodes)
      ensures ok ==> FreeSlot(old(nodes)[d].ents, k) && Unnamed(old(nodes)[d].ents, Short(name))
      ensures ok ==> nodes == WithEntry(old(nodes), d, k, Dirent(inum, Short(name)))
      ensures ok ==>
                NamesUnique(nodes[d].ents) && NameMap(nodes[d].ents) == NameMap(old(nodes)[d].ents)[Short(name) := inum]
    {
      var found, _ := Dirlookup(d, name);
      if found != 0 { return false, 0; }
      var ents := nodes[d].ents;
      k := 0;
      while k < |ents|
        invariant 0 <= k <= |ents| && forall j :: 0 <= j < k ==> ents[j].inum != 0
      {
        if ents[k].inum == 0 { break; }
        k := k + 1;
      }
      ok := k < |ents| || space;
      if ok {
        NameMapPut(ents, k, Dirent(inum, Short(name)));
        PutUnique(ents, k, Dirent(inum, Short(name)));
        nodes := WithEntry(nodes, d, k, Dirent(inum, Short(name)));
      }
    }

    /** isdirempty(): looks at the entries after the first two. */
    method Isdirempty(d: nat) returns (empty: bool)
      requires d < |nodes|
      ensures empty <==> NoNames(nodes[d].ents)
    {
      var k := 2;
      while k < |nodes[d].ents|
        invariant 2 <= k && forall j :: 2 <= j < k && j < |nodes[d].ents| ==> nodes[d].ents[j].inum == 0
      {
        if nodes[d].ents[k].inum != 0 { return false; }
        k := k + 1;
      }
      empty := true;
    }

    /** iput() of the caller's reference: an inode that nothing links or refers to is freed. */
    method Iput(i: nat)
      requires |refs| == |nodes| && i < |nodes|
      modifies this`nodes
      ensures nodes == Put(old(nodes), refs, i)
      ensures 0 < i && old(Valid()) ==> Valid()
    {
      hide Links, Names, Good;
      if refs[i] == 0 && nodes[i].nlink == 0 {
        if 0 < i && Valid() { PutOk(nodes, refs, at, i); }
        nodes := nodes[i := FREE];
      }
    }

    /** ialloc(): the first free inode. */
    method Ialloc(typ: nat) returns (i: nat)
      requires typ != 0
      modifies this`nodes
      ensures i == 0 ==> nodes == old(nodes) && forall j :: 0 < j < |nodes| ==> nodes[j].typ != 0
      ensures i != 0 ==> 0 < i < |old(nodes)| && old(nodes)[i].typ == 0 && nodes == old(nodes)[i := Node(typ, 0, [])]
    {
      i := 1;
      while i < |nodes|
        invariant 1 <= i && nodes == old(nodes) && forall j :: 0 < j < i && j < |nodes| ==> nodes[j].typ != 0
      {
        if nodes[i].typ == 0 {
          nodes := nodes[i := Node(typ, 0, [])];
          return;
        }
        i := i + 1;
      }
      i := 0;
    }

    /** sys_link() once both paths are resolved: a new name for a file, or no change but that of dropping the last
        reference to something unlinked.  The counts stay right exactly if the directory is linked and the count has
        room. */
    method Link(ip: nat, dp: nat, name: string, space: bool) returns (r: int)
      requires Valid() && 0 < ip < |nodes| && IsDir(dp) && nodes[ip].typ != 0
      modifies this`nodes
      ensures |nodes| == |old(nodes)| && (r == 0 || r == -1)
      ensures KeptIf(r == 0 ==> LinkedDir(old(nodes)[dp]) && old(nodes)[ip].nlink < MAXLINK)
      ensures r == 0 <==> && old(nodes)[ip].typ != T_DIR && Short(name) !in NameMap(old(nodes)[dp].ents)
                          && (space || HasHole(old(nodes)[dp].ents))
      ensures r == -1 ==>
                nodes == Put(if old(nodes)[ip].typ == T_DIR then old(nodes) else Put(old(nodes), refs, dp), refs, ip)
      ensures r == 0 ==> ip != dp && nodes[ip] == old(nodes)[ip].(nlink := Int16(old(nodes)[ip].nlink + 1))
      ensures r == 0 ==> Bound(old(nodes)[dp], nodes[dp], Short(name), ip, 0, refs[dp])
      ensures forall j :: 0 <= j < |nodes| && j != ip && j != dp ==> nodes[j] == old(nodes)[j]
    {
      hide Links, Names, NameMap, Good;
      FirstFree(nodes, at);
      if nodes[ip].typ == T_DIR {
        Iput(ip);
        return -1;
      }
      ghost var was := nodes;
      DirUnique(nodes, at, dp);
      nodes := WithLinks(nodes, ip, Int16(nodes[ip].nlink + 1));
      var ok, k := Dirlink(dp, name, ip, space);
      if !ok {
        assert nodes[dp] == was[dp];
        Iput(dp);
        nodes := WithLinks(nodes, ip, Int16(nodes[ip].nlink - 1));
        CountBounds(was, at, ip);
        assert nodes == Put(was, refs, dp);
        PutOk(was, refs, at, dp);
        Iput(ip);
        return -1;
      }
      LinkedOk(was, refs, at, ip, dp, k, Short(name));
      Iput(dp);
      Iput(ip);
      r := 0;
    }

    /** The state sys_unlink() leaves before the last reference goes. */
    method RemoveEntry(dp: nat, k: nat, ip: nat)
      requires Valid() && IsEntry(nodes, dp, k, ip) && (nodes[ip].typ == T_DIR ==> NoNames(nodes[ip].ents))
      modifies this`nodes, this`at
      ensures Valid() && |nodes| == |old(nodes)| && LinkedDir(nodes[dp]) && ip != dp
      ensures nodes[ip] == old(nodes)[ip].(nlink := old(nodes)[ip].nlink - 1) && old(nodes)[ip].nlink >= 1
      ensures nodes[dp] ==
                Node(T_DIR, old(nodes)[dp].nlink - (if nodes[ip].typ == T_DIR then 1 else 0),
                old(nodes)[dp].ents[k := HOLE])
      ensures forall j :: 0 <= j < |nodes| && j != ip && j != dp ==> nodes[j] == old(nodes)[j]
    {
      hide Links, Names, Good;
      ghost var was := nodes;
      if nodes[ip].typ == T_DIR {
        UnlinkDirGood(nodes, at, dp, k, ip);
        EmptyDirOneLink(nodes, at, dp, k, ip);
        ParentStays(nodes, at, dp, k, ip);
        nodes := WithEntry(nodes, dp, k, HOLE);
        nodes := WithLinks(nodes, dp, nodes[dp].nlink - 1);
        nodes := WithLinks(nodes, ip, nodes[ip].nlink - 1);
        at := at - {ip};
      } else {
        UnlinkFileGood(nodes, at, dp, k);
        nodes := WithEntry(nodes, dp, k, HOLE);
        nodes := WithLinks(nodes, ip, nodes[ip].nlink - 1);
      }
    }

    /** sys_unlink() once the parent is resolved: the name goes, and the inode with its last name and reference. */
    method Unlink(dp: nat, name: string) returns (r: int)
      requires Valid() && IsDir(dp)
      modifies this`nodes, this`at
      ensures Valid() && (r == 0 || r == -1) && |nodes| == |old(nodes)|
      ensures r == 0 <==> Short(name) != "." && Short(name) != ".." && Short(name) in NameMap(old(nodes)[dp].ents)
                          && Removable(old(nodes), NameMap(old(nodes)[dp].ents)[Short(name)])
      ensures r == -1 ==> nodes == Put(old(nodes), refs, dp)
      ensures r == 0 ==> var ip := NameMap(old(nodes)[dp].ents)[Short(name)];
                         && ip < |nodes| && ip != dp && LinkedDir(nodes[dp])
                         && (forall j :: 0 <= j < |nodes| && j != ip && j != dp ==> nodes[j] == old(nodes)[j])
                         && nodes[ip] == Fewer(old(nodes)[ip], refs[ip])
                         && nodes[dp].nlink == old(nodes)[dp].nlink - (if old(nodes)[ip].typ == T_DIR then 1 else 0)
      ensures r == 0 ==> NameMap(nodes[dp].ents) == NameMap(old(nodes)[dp].ents) - {Short(name)}
    {
      hide Links, Names, NameMap, Good;
      FirstFree(nodes, at);
      if Short(name) == "." || Short(name) == ".." {
        Iput(dp);
        return -1;
      }
      DirUnique(nodes, at, dp);
      var ip, k := Dirlookup(dp, name);
      if ip == 0 {
        Iput(dp);
        return -1;
      }
      EntryFound(nodes, at, dp, k, ip);
      if nodes[ip].typ == T_DIR {
        var empty := Isdirempty(ip);
        if !empty {
          NamedLinked(nodes, at, dp, k);
          Iput(ip);
          Iput(dp);
          return -1;
        }
      }
      NameMapClear(nodes[dp].ents, k);
      RemoveEntry(dp, k, ip);
      Iput(dp);
      Iput(ip);
      r := 0;
    }

    /** The middle of create(): the new inode gets its count, its dot entries if it is a directory, and its name. */
    method Enter(ip: nat, dp: nat, name: string, typ: nat, dots: bool, space: bool, ghost was: seq<Node>)
        returns (ok: bool, k: nat)
      requires ip < |was| && was[ip] == FREE && typ != 0 && nodes == was[ip := Node(typ, 0, [])] && ip != 0 && dp != 0
      requires dp < |was| && was[dp].typ == T_DIR && NamesUnique(was[dp].ents) && Short(name) !in NameMap(was[dp].ents)
      modifies this`nodes
      ensures ok <==> (typ == T_DIR ==> dots) && (space || HasHole(was[dp].ents))
      ensures !ok ==> |nodes| == |was| && nodes == was[ip := nodes[ip]]
      ensures ok ==> FreeSlot(was[dp].ents, k) && Unnamed(was[dp].ents, Short(name))
      ensures ok ==> nodes == WithEntry(was[ip := Made(typ, ip, dp)], dp, k, Dirent(ip, Short(name)))
      ensures ok ==> NameMap(nodes[dp].ents) == NameMap(was[dp].ents)[Short(name) := ip]
    {
      hide Links, Names, NameMap;
      nodes := WithLinks(nodes, ip, 1);
      ok, k := true, 0;
      if typ == T_DIR {
        ok := LinkDots(ip, dp, dots);
      }
      if ok {
        assert nodes == was[ip := Made(typ, ip, dp)];
        ok, k := Dirlink(dp, name, ip, space);
      }
    }

    /** create() for a name that is not there yet, with inode `ip` just allocated; on failure it is freed again. */
    method Fill(ip: nat, dp: nat, name: string, typ: nat, dots: bool, space: bool, ghost was: seq<Node>)
        returns (ok: bool)
      requires TreeOk(was, refs, at) && 0 < ip < |was| && was[ip] == FREE && typ != 0 &&
                 nodes == was[ip := Node(typ, 0, [])]
      requires dp < |was| && was[dp].typ == T_DIR && Short(name) !in NameMap(was[dp].ents)
      modifies this`nodes, this`at
      ensures |nodes| == |was|
      ensures ok <==> (typ == T_DIR ==> dots) && (space || HasHole(was[dp].ents))
      ensures KeptIf(ok ==> LinkedDir(was[dp]) && (typ == T_DIR ==> was[dp].nlink < MAXLINK))
      ensures !ok ==> nodes == Put(was, refs, dp)
      ensures ok ==> ip != dp && nodes[ip] == Made(typ, ip, dp)
      ensures ok ==> Bound(was[dp], nodes[dp], Short(name), ip, if typ == T_DIR then 1 else 0, refs[dp])
      ensures forall j :: 0 <= j < |nodes| && j != ip && j != dp ==> nodes[j] == was[j]
    {
      hide Links, Names, NameMap, Good, NamesUnique, FreeSlot, Unnamed, HasHole;
      DirUnique(was, at, dp);
      FirstFree(was, at);
      var k;
      ok, k := Enter(ip, dp, name, typ, dots, space, was);
      if !ok {
        nodes := WithLinks(nodes, ip, 0);
        Iput(ip);
        assert nodes == was;
        Iput(dp);
        return;
      }
      if typ == T_DIR {
        nodes := WithLinks(nodes, dp, Int16(nodes[dp].nlink + 1));
        MadeDirOk(was, refs, at, ip, dp, k, Short(name));
        at := at[ip := (dp, k)];
      } else {
        MadeFileOk(was, refs, at, ip, typ, dp, k, Short(name));
      }
      Iput(dp);
    }

    /** The tree is valid if the condition holds, and otherwise no recorded places make it so. */
    ghost predicate KeptIf(cond: bool)
      reads this
    {
      if cond then Valid() else forall any :: !Good(nodes, any)
    }

    /** The "." and ".." entries of a new directory; `space` says whether its first block could be allocated. */
    method LinkDots(ip: nat, dp: nat, space: bool) returns (ok: bool)
      requires IsDir(ip) && nodes[ip].ents == [] && ip != 0 && dp != 0
      modifies this`nodes
      ensures ok == space && |nodes| == |old(nodes)|
      ensures nodes == if ok then old(nodes)[ip := old(nodes)[ip].(ents := NewDir(ip, dp).ents)] else old(nodes)
    {
      hide Links, Names, NameMap, Short;
      DotNames();
      var k;
      ghost var was := nodes;
      ok, k := Dirlink(ip, ".", ip, space);
      if ok {
        assert nodes[ip].ents == [Dirent(ip, ".")];
        ok, k := Dirlink(ip, "..", dp, space);
        if ok {
          assert nodes[ip].ents == NewDir(ip, dp).ents;
          assert nodes == was[ip := was[ip].(ents := NewDir(ip, dp).ents)];
        }
      }
    }

    /** create() once the parent is resolved: the inode of the name, new or existing, or 0.  The counts stay right
        exactly if nothing was made in an unlinked directory and the parent's count has room for a directory. */
    method Create(dp: nat, name: string, typ: nat, dots: bool, space: bool) returns (ip: nat, panicked: bool)
      requires Valid() && IsDir(dp) && typ in {T_DIR, T_FILE, T_DEVICE}
      modifies this`nodes, this`at
      ensures |nodes| == |old(nodes)|
      ensures panicked <==> !FoundInUse(old(nodes), old(nodes)[dp].ents, Short(name))
      ensures panicked ==> ip == 0 && nodes == Put(old(nodes), refs, dp)
      ensures KeptIf(New(old(nodes)[dp], name, ip) ==>
                LinkedDir(old(nodes)[dp]) && (typ == T_DIR ==> old(nodes)[dp].nlink < MAXLINK))
      ensures Short(name) in NameMap(old(nodes)[dp].ents) && !panicked ==>
                var i := NameMap(old(nodes)[dp].ents)[Short(name)];
                && i < |nodes| && (ip == i || ip == 0)
                && (ip == i <==> typ == T_FILE && (old(nodes)[i].typ == T_FILE || old(nodes)[i].typ == T_DEVICE))
                && nodes == if ip != 0 then Put(old(nodes), refs, dp) else Put(Put(old(nodes), refs, dp), refs, i)
      ensures Short(name) !in NameMap(old(nodes)[dp].ents) && ip == 0 ==> nodes == Put(old(nodes), refs, dp)
      ensures New(old(nodes)[dp], name, ip) ==>
                ip < |nodes| && ip != dp && old(nodes)[ip] == FREE && nodes[ip] == Made(typ, ip, dp)
      ensures New(old(nodes)[dp], name, ip) ==>
                Bound(old(nodes)[dp], nodes[dp], Short(name), ip, if typ == T_DIR then 1 else 0, refs[dp])
      ensures New(old(nodes)[dp], name, ip) ==>
                forall j :: 0 <= j < |nodes| && j != ip && j != dp ==> nodes[j] == old(nodes)[j]
      ensures Short(name) !in NameMap(old(nodes)[dp].ents) ==>
                (ip != 0 <==> HasFree(old(nodes)) && (typ == T_DIR ==> dots) && (space || HasHole(old(nodes)[dp].ents)))
    {
      hide Links, Names, NameMap, Good, Bound;
      ghost var was := nodes;
      DirUnique(nodes, at, dp);
      FirstFree(nodes, at);
      var found, _ := Dirlookup(dp, name);
      panicked := false;
      if found != 0 {
        FoundInRange(nodes, at, dp, Short(name));
        panicked := nodes[found].typ == 0;
        ip := Reusable(nodes, found, typ);
        Iput(dp);
        if panicked { return; }
        if ip == 0 { Iput(found); }
        return;
      }
      ip := Ialloc(typ);
      if ip == 0 {
        Iput(dp);
        return;
      }
      FreeIs(was, at, ip);
      var ok := Fill(ip, dp, name, typ, dots, space, was);
      if !ok { ip := 0; }
    }

    /** A process opens an inode, or makes it its current directory. */
    method Hold(i: nat)
      requires Valid() && i < |nodes| && nodes[i].typ != 0
      modifies this`refs
      ensures Valid() && refs == old(refs)[i := old(refs)[i] + 1]
    {
      refs := refs[i := refs[i] + 1];
    }

    /** The last reference to an unlinked inode frees it. */
    method Close(i: nat)
      requires Valid() && 0 < i < |nodes| && refs[i] > 0
      modifies this`nodes, this`refs
      ensures Valid() && refs == old(refs)[i := old(refs)[i] - 1]
      ensures nodes == Put(old(nodes), refs, i)
    {
      hide Links, Names, Good;
      refs := refs[i := refs[i] - 1];
      Iput(i);
    }

    /** ireclaim() at boot: afterwards every inode in use is linked; linked ones are as they were. */
    method Ireclaim()
      requires Valid() && forall i :: 0 <= i < |refs| ==> refs[i] == 0
      modifies this`nodes
      ensures Valid() && |nodes| == |old(nodes)|
      ensures forall i :: 0 <= i < |nodes| && nodes[i].typ != 0 ==> nodes[i].nlink > 0
      ensures forall i :: 0 <= i < |nodes| && old(nodes)[i].nlink > 0 ==> nodes[i] == old(nodes)[i]
    {
      hide Links, Names, Good;
      FirstFree(nodes, at);
      var i := 1;
      while i < |nodes|
        invariant 1 <= i && Valid() && |nodes| == |old(nodes)|
        invariant forall j :: 0 <= j < i && j < |nodes| && nodes[j].typ != 0 ==> nodes[j].nlink > 0
        invariant forall j :: 0 <= j < |nodes| && old(nodes)[j].nlink > 0 ==> nodes[j] == old(nodes)[j]
      {
        CountNotNegative(nodes, at, i);
        if nodes[i].typ != 0 && nodes[i].nlink == 0 {
          Iput(i);
        }
        i := i + 1;
      }
    }
  }

  /** create() on an existing name: only a file or device found as T_FILE is acceptable. */
  function Reusable(nodes: seq<Node>, i: nat, typ: nat): nat {
    if i < |nodes| && typ == T_FILE && (nodes[i].typ == T_FILE || nodes[i].typ == T_DEVICE) then i else 0
  }

  /** iput() in terms of inodes: `refs` counts the references other than the one dropped. */
  function Put(nodes: seq<Node>, refs: seq<nat>, i: nat): seq<Node>
    requires |refs| == |nodes| && i < |nodes|
  {
    if refs[i] == 0 && nodes[i].nlink == 0 then nodes[i := FREE] else nodes
  }

  /** An inode after one of its names went, and with it perhaps the last reason to keep it. */
  function Fewer(n: Node, refs: nat): Node { if n.nlink == 1 && refs == 0 then FREE else n.(nlink := n.nlink - 1) }

  /** A directory after `name` was bound to `ip` in it and its count raised; one that ends up unlinked and without
      references is freed. */
  ghost predicate Bound(dir: Node, dir': Node, name: string, ip: nat, more: int, refs: nat) {
    if dir.nlink + more == 0 && refs == 0 then dir' == FREE
    else
      && dir' == dir.(nlink := Int16(dir.nlink + more), ents := dir'.ents)
      && NameMap(dir'.ents) == NameMap(dir.ents)[name := ip]
  }

  /** What create() makes. */
  function Made(typ: nat, ip: nat, dp: nat): Node { if typ == T_DIR then NewDir(ip, dp) else Node(typ, 1, []) }

  /** create() with this result made a new inode. */
  ghost predicate New(dir: Node, name: string, ip: nat) { Short(name) !in NameMap(dir.ents) && ip != 0 }

  ghost predicate HasFree(nodes: seq<Node>) { exists j :: 0 < j < |nodes| && nodes[j].typ == 0 }

  /** What the name leads to is in use; ilock() panics otherwise. */
  ghost predicate FoundInUse(nodes: seq<Node>, ents: seq<Dirent>, name: string) {
    name in NameMap(ents) ==> NameMap(ents)[name] < |nodes| && nodes[NameMap(ents)[name]].typ != 0
  }

  lemma FoundInRange(nodes: seq<Node>, at: map<nat, (nat, nat)>, dp: nat, name: string)
    requires Good(nodes, at) && dp < |nodes| && nodes[dp].typ == T_DIR && name in NameMap(nodes[dp].ents)
    ensures NameMap(nodes[dp].ents)[name] < |nodes|
  {
    hide Links, Names, CountOk;
    var k := NameMapFrom(nodes[dp].ents, name);
    assert DirOk(nodes, dp);
    if k >= 2 { assert PlaceOk(nodes, at, dp, k); }
  }

  /** In a linked directory every name leads to an inode in use. */
  lemma FoundLinked(nodes: seq<Node>, at: map<nat, (nat, nat)>, dp: nat, name: string)
    requires Good(nodes, at) && dp < |nodes| && LinkedDir(nodes[dp])
    ensures FoundInUse(nodes, nodes[dp].ents, name)
  {
    hide Links, Names;
    var ents := nodes[dp].ents;
    assert DirOk(nodes, dp) && Placed(nodes, at, dp);
    if name in NameMap(ents) {
      var k := NameMapFrom(ents, name);
      if k == 1 {
        ParentInUse(nodes, at, dp);
      } else if k >= 2 {
        assert PlaceOk(nodes, at, dp, k);
        NotDot(nodes, at, dp, k);
        NamedLinked(nodes, at, dp, k);
      }
    }
  }

  lemma ParentInUse(nodes: seq<Node>, at: map<nat, (nat, nat)>, dp: nat)
    requires Good(nodes, at) && dp < |nodes| && LinkedDir(nodes[dp]) && |nodes[dp].ents| >= 2
    ensures nodes[dp].ents[1].inum < |nodes| && nodes[nodes[dp].ents[1].inum].typ != 0
  {
    hide Links, Names, CountOk;
    assert DirOk(nodes, dp) && Placed(nodes, at, dp);
    if dp != ROOTINO { assert PlaceOk(nodes, at, at[dp].0, at[dp].1); }
  }

  ghost predicate TreeOk(nodes: seq<Node>, refs: seq<nat>, at: map<nat, (nat, nat)>) {
    && |refs| == |nodes| && Good(nodes, at)
    && forall i :: 0 <= i < |nodes| ==> nodes[i].nlink <= MAXLINK && (nodes[i].typ == 0 ==> refs[i] == 0)
  }

  lemma PutOk(nodes: seq<Node>, refs: seq<nat>, at: map<nat, (nat, nat)>, i: nat)
    requires TreeOk(nodes, refs, at) && 0 < i < |nodes|
    ensures TreeOk(Put(nodes, refs, i), refs, at)
  {
    hide Good;
    if nodes[i].nlink == 0 { FreeGood(nodes, at, i); }
  }

  lemma CountBounds(nodes: seq<Node>, at: map<nat, (nat, nat)>, i: nat)
    requires Good(nodes, at) && 0 < i < |nodes| && nodes[i].nlink <= MAXLINK
    ensures 0 <= nodes[i].nlink && Int16(Int16(nodes[i].nlink + 1) - 1) == nodes[i].nlink
  {
    hide Good;
    CountNotNegative(nodes, at, i);
  }

  /** sys_link() keeps the counts right exactly if the directory is linked and the count does not wrap around. */
  lemma LinkedOk(was: seq<Node>, refs: seq<nat>, at: map<nat, (nat, nat)>, ip: nat, dp: nat, k: nat, name: string)
    requires TreeOk(was, refs, at) && 0 < ip < |was| && 0 < dp < |was| && was[ip].typ != 0 && was[ip].typ != T_DIR
    requires was[dp].typ == T_DIR && FreeSlot(was[dp].ents, k) && Unnamed(was[dp].ents, name)
    ensures 0 <= was[ip].nlink && 0 <= was[dp].nlink
    ensures var nodes :=
              Put(WithEntry(WithLinks(was, ip, Int16(was[ip].nlink + 1)), dp, k, Dirent(ip, name)), refs, dp);
            if LinkedDir(was[dp]) && was[ip].nlink < MAXLINK then TreeOk(nodes, refs, at)
                else forall any :: !Good(nodes, any)
  {
    hide Good;
    var nodes := Put(WithEntry(WithLinks(was, ip, Int16(was[ip].nlink + 1)), dp, k, Dirent(ip, name)), refs, dp);
    CountNotNegative(was, at, ip);
    CountNotNegative(was, at, dp);
    if was[ip].nlink < MAXLINK && LinkedDir(was[dp]) {
      LinkGood(was, at, ip, dp, k, name);
    } else {
      forall any
        ensures !Good(nodes, any)
      {
        if was[ip].nlink == MAXLINK {
          WrappedCount(nodes, ip, any);
        } else {
          LinkIntoUnlinked(was, at, ip, dp, nodes[dp], any);
          assert nodes == WithLinks(was, ip, was[ip].nlink + 1)[dp := nodes[dp]];
        }
      }
    }
  }

  /** create() of a file or device keeps the counts right exactly if the directory is linked. */
  lemma MadeFileOk(was: seq<Node>, refs: seq<nat>, at: map<nat, (nat, nat)>, i: nat, typ: nat, dp: nat, k: nat,
      name: string)
    requires TreeOk(was, refs, at) && 0 < i < |was| && was[i] == FREE && typ != 0 && typ != T_DIR
    requires 0 < dp < |was| && was[dp].typ == T_DIR && FreeSlot(was[dp].ents, k) && Unnamed(was[dp].ents, name)
    ensures 0 <= was[dp].nlink
    ensures var nodes := Put(WithEntry(was[i := Node(typ, 1, [])], dp, k, Dirent(i, name)), refs, dp);
            if LinkedDir(was[dp]) then TreeOk(nodes, refs, at) else forall any :: !Good(nodes, any)
  {
    hide Good;
    var nodes := Put(WithEntry(was[i := Node(typ, 1, [])], dp, k, Dirent(i, name)), refs, dp);
    CountNotNegative(was, at, dp);
    if LinkedDir(was[dp]) {
      CreateFileGood(was, at, i, typ, dp, k, name);
    } else {
      forall any
        ensures !Good(nodes, any)
      {
        CreateFileIntoUnlinked(was, at, i, typ, dp, nodes[dp], any);
        assert nodes == was[i := Node(typ, 1, [])][dp := nodes[dp]];
      }
    }
  }

  /** create() of a directory keeps the counts right exactly if the parent is linked and its count does not wrap. */
  lemma MadeDirOk(was: seq<Node>, refs: seq<nat>, at: map<nat, (nat, nat)>, i: nat, dp: nat, k: nat, name: string)
    requires TreeOk(was, refs, at) && 0 < i < |was| && was[i] == FREE
    requires 0 < dp < |was| && was[dp].typ == T_DIR && FreeSlot(was[dp].ents, k) && Unnamed(was[dp].ents, name)
    ensures 0 <= was[dp].nlink
    ensures var nodes :=
              WithLinks(WithEntry(was[i := NewDir(i, dp)], dp, k, Dirent(i, name)), dp, Int16(was[dp].nlink + 1));
            if LinkedDir(was[dp]) && was[dp].nlink < MAXLINK then TreeOk(nodes, refs, at[i := (dp, k)])
                else forall any :: !Good(nodes, any)
  {
    hide Good;
    var nodes := WithLinks(WithEntry(was[i := NewDir(i, dp)], dp, k, Dirent(i, name)), dp, Int16(was[dp].nlink + 1));
    CountNotNegative(was, at, dp);
    if LinkedDir(was[dp]) && was[dp].nlink < MAXLINK {
      CreateDirGood(was, at, i, dp, k, name);
    } else {
      forall any
        ensures !Good(nodes, any)
      {
        if was[dp].nlink == MAXLINK { WrappedCount(nodes, dp, any); }
            else { CreateDirIntoUnlinked(was, at, i, dp, k, name, any); }
      }
    }
  }

  lemma DotNames()
    ensures Short(".") == "." && Short("..") == ".." && NameMap([]) == map[]
  {}

  lemma FreeIs(nodes: seq<Node>, at: map<nat, (nat, nat)>, i: nat)
    requires Good(nodes, at) && i < |nodes| && nodes[i].typ == 0
    ensures nodes[i] == FREE
  {}

  lemma FirstFree(nodes: seq<Node>, at: map<nat, (nat, nat)>)
    requires Good(nodes, at)
    ensures |nodes| > 0 && nodes[0].typ == 0
  {}

  lemma CountNotNegative(nodes: seq<Node>, at: map<nat, (nat, nat)>, i: nat)
    requires Good(nodes, at) && 0 < i < |nodes|
    ensures nodes[i].nlink >= 0
  {
    assert CountOk(nodes, i);
  }

  /** Anything but a directory that has entries of its own. */
  ghost predicate Removable(nodes: seq<Node>, i: nat) { i < |nodes| &&
      (nodes[i].typ == T_DIR ==> NoNames(nodes[i].ents)) }

  /** A name other than the dots is an entry of a linked directory. */
  lemma EntryFound(nodes: seq<Node>, at: map<nat, (nat, nat)>, dp: nat, k: nat, ip: nat)
    requires Good(nodes, at) && dp < |nodes| && nodes[dp].typ == T_DIR && k < |nodes[dp].ents| &&
               nodes[dp].ents[k].inum == ip != 0
    requires nodes[dp].ents[k].name != "." && nodes[dp].ents[k].name != ".."
    ensures IsEntry(nodes, dp, k, ip)
  {
    assert DirOk(nodes, dp);
    assert PlaceOk(nodes, at, dp, k);
  }

  ghost predicate HasHole(ents: seq<Dirent>) { exists k :: 0 <= k < |ents| && ents[k].inum == 0 }

  lemma DirUnique(nodes: seq<Node>, at: map<nat, (nat, nat)>, d: nat)
    requires Good(nodes, at) && d < |nodes| && nodes[d].typ == T_DIR
    ensures NamesUnique(nodes[d].ents)
  {
    assert DirOk(nodes, d);
  }

  lemma FreshGood(nodes: seq<Node>)
    requires |nodes| > ROOTINO && nodes[ROOTINO] == Node(T_DIR, 1, [Dirent(ROOTINO, "."), Dirent(ROOTINO, "..")])
    requires forall i :: 0 <= i < |nodes| && i != ROOTINO ==> nodes[i] == FREE
    ensures Good(nodes, map[])
  {
    hide Names, LinksBelow;
    DotsUnique(ROOTINO, ROOTINO);
    forall i | 0 < i < |nodes|
      ensures CountOk(nodes, i)
    {
      NewDirNames(ROOTINO, ROOTINO, i);
      LinksOnly(nodes, ROOTINO, i);
    }
  }

  // ------------------------------------------------- the failing states are reached

  /** A root directory with one file `f` and one directory `d`. */
  method FileAndDir() returns (t: FileTree, f: nat, d: nat)
    ensures fresh(t) && t.Valid() && 0 < f < |t.nodes| && t.nodes[f] == Node(T_FILE, 1, [])
    ensures 0 < d < |t.nodes| && t.nodes[d] == NewDir(d, ROOTINO) && d != f && f != ROOTINO && d != ROOTINO &&
              t.refs[d] == 0
    ensures LinkedDir(t.nodes[ROOTINO]) && NameMap(t.nodes[ROOTINO].ents) ==
              map["." := ROOTINO, ".." := ROOTINO, "f" := f, "d" := d]
    ensures exists j :: 0 < j < |t.nodes| && j != f && j != d && t.nodes[j].typ == 0
  {
    hide Good, NameMap, Short;
    t := new FileTree(5);
    ShortNames();
    FoundLinked(t.nodes, t.at, ROOTINO, "f");
    assert t.nodes[2].typ == 0;
    var panicked;
    f, panicked := t.Create(ROOTINO, "f", T_FILE, true, true);
    assert t.nodes[if f == 2 then 3 else 2].typ == 0;
    FoundLinked(t.nodes, t.at, ROOTINO, "d");
    d, panicked := t.Create(ROOTINO, "d", T_DIR, true, true);
    assert t.nodes[if f != 2 && d != 2 then 2 else if f != 3 && d != 3 then 3 else 4].typ == 0;
  }

  /** create() of an existing file gives the same inode again, mkdir() of an existing directory gives none. */
  method CreatedTwice() returns (f: nat, g: nat, d: nat)
    ensures f != 0 && g == f && d == 0
  {
    hide Good, NameMap, Short;
    var t, e, panicked;
    t, f, e := FileAndDir();
    ShortNames();
    FoundLinked(t.nodes, t.at, ROOTINO, "f");
    g, panicked := t.Create(ROOTINO, "f", T_FILE, true, true);
    FoundLinked(t.nodes, t.at, ROOTINO, "d");
    d, panicked := t.Create(ROOTINO, "d", T_DIR, true, true);
  }

  /** A file `f`, and a directory `d` that was removed while it was some process's current directory. */
  method RemovedWhileHeld() returns (t: FileTree, f: nat, d: nat)
    ensures fresh(t) && t.Valid() && 0 < f < |t.nodes| && t.nodes[f] == Node(T_FILE, 1, [])
    ensures t.IsDir(d) && t.nodes[d].nlink == 0 && t.refs[d] == 1
    ensures NameMap(t.nodes[d].ents) == map["." := d, ".." := ROOTINO]
    ensures HasFree(t.nodes)
  {
    hide Good, NameMap, Short;
    t, f, d := FileAndDir();
    ShortNames();
    NewDirMap(d, ROOTINO);
    ghost var j :| 0 < j < |t.nodes| && j != f && j != d && t.nodes[j].typ == 0;
    t.Hold(d);
    var r := t.Unlink(ROOTINO, "d");
    assert t.nodes[j].typ == 0;
  }

  /** sys_link() from there. */
  method LinkReached() returns (t: FileTree)
    ensures fresh(t) && forall any :: !Good(t.nodes, any)
  {
    hide Good, NameMap, Short;
    var f, d;
    t, f, d := RemovedWhileHeld();
    ShortNames();
    var r := t.Link(f, d, "f", true);
  }

  /** create() of a file or of a directory from there. */
  method CreateReached(typ: nat) returns (t: FileTree)
    requires typ == T_FILE || typ == T_DIR
    ensures fresh(t) && forall any :: !Good(t.nodes, any)
  {
    hide Good, NameMap, Short;
    var f, d;
    t, f, d := RemovedWhileHeld();
    ShortNames();
    var i, panicked := t.Create(d, "f", typ, true, true);
  }

  /** A directory `e` in a directory `d`; both are removed while `e` is held, and `e` keeps its name for `d`. */
  method RemovedTwice() returns (t: FileTree, e: nat, d: nat)
    ensures fresh(t) && t.Valid() && t.IsDir(e) && d < |t.nodes| && t.nodes[d] == FREE
    ensures NameMap(t.nodes[e].ents) == map["." := e, ".." := d]
  {
    hide Good, NameMap, Short;
    var f, panicked;
    t, f, d := FileAndDir();
    ShortNames();
    NewDirMap(d, ROOTINO);
    e, panicked := t.Create(d, "d", T_DIR, true, true);
    t.Hold(e);
    NewDirMap(e, d);
    var r := t.Unlink(d, "d");
    OnlyDots(t.nodes, t.at, d);
    r := t.Unlink(ROOTINO, "d");
  }

  /** Without other names in its name map a directory is empty. */
  lemma OnlyDots(nodes: seq<Node>, at: map<nat, (nat, nat)>, d: nat)
    requires Good(nodes, at) && d < |nodes| && nodes[d].typ == T_DIR && NameMap(nodes[d].ents).Keys <= {".", ".."}
    ensures NoNames(nodes[d].ents)
  {
    hide Links, Names, CountOk, NameMap;
    var ents := nodes[d].ents;
    assert DirOk(nodes, d);
    forall k | 2 <= k < |ents|
      ensures ents[k].inum == 0
    {
      if ents[k].inum != 0 { NameMapAt(ents, k); }
    }
  }

  /** There create() of ".." panics. */
  method CreatePanics() returns (t: FileTree, panicked: bool)
    ensures panicked
  {
    hide Good, NameMap, Short;
    var e, d, ip;
    t, e, d := RemovedTwice();
    ShortNames();
    ip, panicked := t.Create(e, "..", T_FILE, true, true);
  }

  lemma ShortNames()
    ensures Short("f") == "f" && Short("d") == "d" && Short("..") == ".."
  {}

  lemma NewDirMap(i: nat, dp: nat)
    requires i != 0 && dp != 0
    ensures NameMap(NewDir(i, dp).ents) == map["." := i, ".." := dp]
  {
    var ents := NewDir(i, dp).ents;
    DotsUnique(i, dp);
    NameMapAt(ents, 0);
    NameMapAt(ents, 1);
    forall x | x in NameMap(ents)
      ensures x == "." || x == ".."
    {
      var k := NameMapFrom(ents, x);
    }
  }
}
