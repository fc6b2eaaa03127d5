/** Directory entries and link counts, as create(), sys_link() and sys_unlink() of kernel/sysfile.c and
    dirlookup(), dirlink() and iput() of kernel/fs.c keep them. */
module DirLinks {
  import opened Params

  const T_DIR: nat := 1
  const T_FILE: nat := 2
  const T_DEVICE: nat := 3
  const DIRSIZ: nat := 14
  const MAXLINK: int := 0x7fff   // nlink is a short

  datatype Dirent = Dirent(inum: nat, name: string)

  /** An inode: type 0 is free, and only directories have entries. */
  datatype Node = Node(typ: nat, nlink: int, ents: seq<Dirent>)

  const FREE: Node := Node(0, 0, [])

  /** A link count as the 16-bit field holds it. */
  function Int16(x: int): int { if x > MAXLINK then x - 0x10000 else if x < -MAXLINK - 1 then x + 0x10000 else x }

  // -------------------------------------------------------------------- counting

  function NamesIt(e: Dirent, i: nat): nat { if e.inum == i && e.name != "." then 1 else 0 }

  /** How many entries other than "." name inode `i`. */
  function Names(ents: seq<Dirent>, i: nat): nat {
    if ents == [] then 0 else Names(ents[..|ents| - 1], i) + NamesIt(ents[|ents| - 1], i)
  }

  predicate LinkedDir(n: Node) { n.typ == T_DIR && n.nlink > 0 }

  function Gives(n: Node, i: nat): nat { if LinkedDir(n) then Names(n.ents, i) else 0 }

  /** How many entries other than "." in linked directories below number `n` name inode `i`. */
  function LinksBelow(nodes: seq<Node>, n: nat, i: nat): nat
    requires n <= |nodes|
  {
    if n == 0 then 0 else LinksBelow(nodes, n - 1, i) + Gives(nodes[n - 1], i)
  }

  function Links(nodes: seq<Node>, i: nat): nat { LinksBelow(nodes, |nodes|, i) }

  lemma {:induction false} NamesUpdate(ents: seq<Dirent>, k: nat, e: Dirent, i: nat)
    requires k < |ents|
    ensures Names(ents[k := e], i) == Names(ents, i) - NamesIt(ents[k], i) + NamesIt(e, i)
  {
    var n := |ents| - 1;
    if k == n {
      assert ents[k := e][..n] == ents[..n];
    } else {
      assert ents[k := e][..n] == ents[..n][k := e];
      NamesUpdate(ents[..n], k, e, i);
    }
  }

  lemma NamesAppend(ents: seq<Dirent>, e: Dirent, i: nat)
    ensures Names(ents + [e], i) == Names(ents, i) + NamesIt(e, i)
  {
    assert (ents + [e])[..|ents|] == ents;
  }

  lemma {:induction false} BelowUpdate(nodes: seq<Node>, n: nat, d: nat, nd: Node, i: nat)
    requires n <= |nodes| && d < |nodes|
    ensures LinksBelow(nodes[d := nd], n, i) ==
              LinksBelow(nodes, n, i) + if d < n then Gives(nd, i) - Gives(nodes[d], i) else 0
  {
    if n > 0 { BelowUpdate(nodes, n - 1, d, nd, i); }
  }

  /** Replacing one inode changes the count by what it gives. */
  lemma LinksUpdate(nodes: seq<Node>, d: nat, nd: Node, i: nat)
    requires d < |nodes|
    ensures Links(nodes[d := nd], i) == Links(nodes, i) - Gives(nodes[d], i) + Gives(nd, i)
  {
    BelowUpdate(nodes, |nodes|, d, nd, i);
  }

  lemma {:induction false} NamesNone(ents: seq<Dirent>, i: nat)
    requires forall k :: 0 <= k < |ents| ==> NamesIt(ents[k], i) == 0
    ensures Names(ents, i) == 0
  {
    if ents != [] { NamesNone(ents[..|ents| - 1], i); }
  }

  lemma NamesOne(ents: seq<Dirent>, k: nat, i: nat)
    requires k < |ents| && NamesIt(ents[k], i) == 1
    requires forall j :: 0 <= j < |ents| && j != k ==> NamesIt(ents[j], i) == 0
    ensures Names(ents, i) == 1
  {
    NamesUpdate(ents, k, Dirent(i + 1, ""), i);
    NamesNone(ents[k := Dirent(i + 1, "")], i);
  }

  lemma {:induction false} BelowNone(nodes: seq<Node>, n: nat, i: nat)
    requires n <= |nodes| && forall d :: 0 <= d < n ==> Gives(nodes[d], i) == 0
    ensures LinksBelow(nodes, n, i) == 0
  {
    if n > 0 { BelowNone(nodes, n - 1, i); }
  }

  /** One directory alone gives an inode its links. */
  lemma LinksOnly(nodes: seq<Node>, p: nat, i: nat)
    requires p < |nodes| && forall d :: 0 <= d < |nodes| && d != p ==> Gives(nodes[d], i) == 0
    ensures Links(nodes, i) == Gives(nodes[p], i)
  {
    LinksUpdate(nodes, p, FREE, i);
    BelowNone(nodes[p := FREE], |nodes|, i);
  }

  /** An inode without links is named by no entry of a linked directory, other than ".". */
  lemma {:induction false} NamedCounts(ents: seq<Dirent>, k: nat, i: nat)
    requires k < |ents|
    ensures NamesIt(ents[k], i) <= Names(ents, i)
  {
    var n := |ents| - 1;
    if k < n { assert ents[..n][k] == ents[k]; NamedCounts(ents[..n], k, i); }
  }

  lemma {:induction false} GivesCounts(nodes: seq<Node>, n: nat, d: nat, i: nat)
    requires d < n <= |nodes|
    ensures Gives(nodes[d], i) <= LinksBelow(nodes, n, i)
  {
    if d < n - 1 { GivesCounts(nodes, n - 1, d, i); }
  }

  // ------------------------------------------------------------- the invariant

  /** namecmp() and strncpy() look at the first DIRSIZ characters. */
  function Short(name: string): string { if |name| <= DIRSIZ then name else name[..DIRSIZ] }

  /** The character of a C string at a place, NUL from its end on. */
  function CharAt(name: string, i: nat): char { if i < |name| then name[i] else '\0' }

  /** strncmp(a, b, DIRSIZ) == 0 */
  ghost predicate Namecmp(a: string, b: string) { forall i: nat :: i < DIRSIZ ==> CharAt(a, i) == CharAt(b, i) }

  lemma NulAt(name: string, i: nat)
    requires '\0' !in name
    ensures CharAt(name, i) == '\0' <==> i >= |name|
  {
    if i < |name| { assert name[i] in name; }
  }

  /** Two names are the same to the file system exactly if namecmp() says so. */
  lemma ShortSame(a: string, b: string)
    requires '\0' !in a && '\0' !in b
    ensures Short(a) == Short(b) <==> Namecmp(a, b)
  {
    if Namecmp(a, b) {
      NulAt(a, |a|);
      NulAt(b, |a|);
      NulAt(a, |b|);
      NulAt(b, |b|);
      assert |Short(a)| == |Short(b)|;
      forall i | 0 <= i < |Short(a)|
        ensures Short(a)[i] == Short(b)[i]
      {
        assert CharAt(a, i) == CharAt(b, i);
      }
    }
    if Short(a) == Short(b) {
      forall i: nat | i < DIRSIZ
        ensures CharAt(a, i) == CharAt(b, i)
      {
        assert i < |Short(a)| ==> Short(a)[i] == a[i] && Short(b)[i] == b[i];
      }
    }
  }

  /** No two entries in use have the same name. */
  ghost predicate NamesUnique(ents: seq<Dirent>) {
    forall j, k :: 0 <= j < k < |ents| && ents[j].inum != 0 && ents[k].inum != 0 ==> ents[j].name != ents[k].name
  }

  /** Entries 0 and 1 of a directory are "." and "..". */
  ghost predicate Dotted(nodes: seq<Node>, d: nat)
    requires d < |nodes|
  {
    var ents := nodes[d].ents;
    |ents| >= 2 && ents[0] == Dirent(d, ".") && ents[1].name == ".." && 0 < ents[1].inum < |nodes|
  }

  ghost predicate DirOk(nodes: seq<Node>, d: nat)
    requires d < |nodes|
  {
    var n := nodes[d];
    n.typ == T_DIR ==> Dotted(nodes, d) && NamesUnique(n.ents) && (n.nlink <= 0 ==> NoNames(n.ents))
  }

  /** Nothing but "." and "..". */
  ghost predicate NoNames(ents: seq<Dirent>) { forall k :: 2 <= k < |ents| ==> ents[k].inum == 0 }

  /** A directory is named only from its parent, at the place recorded in `at`. */
  ghost predicate PlaceOk(nodes: seq<Node>, at: map<nat, (nat, nat)>, p: nat, k: nat)
    requires p < |nodes| && k < |nodes[p].ents|
  {
    var i := nodes[p].ents[k].inum;
    i != 0 ==> i < |nodes| && i != ROOTINO &&
               (nodes[i].typ == T_DIR ==>
                   i in at && at[i] == (p, k) && |nodes[i].ents| >= 2 && nodes[i].ents[1].inum == p)
  }

  ghost predicate Placed(nodes: seq<Node>, at: map<nat, (nat, nat)>, d: nat)
    requires d < |nodes|
  {
    LinkedDir(nodes[d]) && d != ROOTINO ==>
      d in at && at[d].0 < |nodes| && LinkedDir(nodes[at[d].0]) && 2 <= at[d].1 < |nodes[at[d].0].ents| &&
          nodes[at[d].0].ents[at[d].1].inum == d
  }

  /** nlink of every inode in use is the number of entries that name it. */
  ghost predicate CountOk(nodes: seq<Node>, i: nat)
    requires i < |nodes|
  {
    Links(nodes, i) == if nodes[i].typ == 0 then 0 else nodes[i].nlink
  }

  ghost predicate RootOk(nodes: seq<Node>) {
    && |nodes| > ROOTINO && LinkedDir(nodes[ROOTINO]) && |nodes[ROOTINO].ents| >= 2 &&
        nodes[ROOTINO].ents[1].inum == ROOTINO
    && nodes[0] == FREE && forall i :: 0 <= i < |nodes| && nodes[i].typ == 0 ==> nodes[i] == FREE
  }

  ghost predicate Good(nodes: seq<Node>, at: map<nat, (nat, nat)>) {
    && RootOk(nodes)
    && (forall i :: 0 < i < |nodes| ==> CountOk(nodes, i))
    && (forall d :: 0 <= d < |nodes| ==> DirOk(nodes, d) && Placed(nodes, at, d))
    && (forall p, k :: 0 <= p < |nodes| && LinkedDir(nodes[p]) && 2 <= k < |nodes[p].ents| ==> PlaceOk(nodes, at, p, k))
  }

  // ---------------------------------------------------------------- the changes

  /** The slot dirlink() writes: a free one, or one past the end. */
  ghost predicate FreeSlot(ents: seq<Dirent>, k: nat) { k <= |ents| && (k < |ents| ==> ents[k].inum == 0) }

  function PutEntry(ents: seq<Dirent>, k: nat, e: Dirent): seq<Dirent>
    requires k <= |ents|
  {
    if k < |ents| then ents[k := e] else ents + [e]
  }

  ghost predicate Unnamed(ents: seq<Dirent>, name: string) {
    forall j :: 0 <= j < |ents| && ents[j].inum != 0 ==> ents[j].name != name
  }

  function WithEntry(nodes: seq<Node>, d: nat, k: nat, e: Dirent): seq<Node>
    requires d < |nodes| && k <= |nodes[d].ents|
  {
    nodes[d := nodes[d].(ents := PutEntry(nodes[d].ents, k, e))]
  }

  function WithLinks(nodes: seq<Node>, i: nat, nlink: int): seq<Node>
    requires i < |nodes|
  {
    nodes[i := nodes[i].(nlink := nlink)]
  }

  lemma PutNames(ents: seq<Dirent>, k: nat, e: Dirent, i: nat)
    requires FreeSlot(ents, k) && i > 0
    ensures Names(PutEntry(ents, k, e), i) == Names(ents, i) + NamesIt(e, i)
  {
    if k < |ents| { NamesUpdate(ents, k, e, i); } else { NamesAppend(ents, e, i); }
  }

  lemma PutUnique(ents: seq<Dirent>, k: nat, e: Dirent)
    requires FreeSlot(ents, k) && NamesUnique(ents) && Unnamed(ents, e.name)
    ensures NamesUnique(PutEntry(ents, k, e))
  {}

  /** A new entry in a linked directory adds one link to the inode it names. */
  lemma EntryLinks(nodes: seq<Node>, d: nat, k: nat, e: Dirent, i: nat)
    requires d < |nodes| && LinkedDir(nodes[d]) && FreeSlot(nodes[d].ents, k) && i > 0
    ensures Links(WithEntry(nodes, d, k, e), i) == Links(nodes, i) + NamesIt(e, i)
  {
    LinksUpdate(nodes, d, nodes[d].(ents := PutEntry(nodes[d].ents, k, e)), i);
    PutNames(nodes[d].ents, k, e, i);
  }

  /** A count that stays positive, or belongs to something that is no directory, gives no links. */
  lemma CountLinks(nodes: seq<Node>, j: nat, nlink: int, i: nat)
    requires j < |nodes| && LinkedDir(nodes[j]) == LinkedDir(nodes[j].(nlink := nlink))
    ensures Links(WithLinks(nodes, j, nlink), i) == Links(nodes, i)
  {
    LinksUpdate(nodes, j, nodes[j].(nlink := nlink), i);
  }

  /** sys_link() that succeeds. */
  lemma LinkGood(nodes: seq<Node>, at: map<nat, (nat, nat)>, ip: nat, dp: nat, k: nat, name: string)
    requires Good(nodes, at) && 0 < ip < |nodes| && dp < |nodes| && nodes[ip].typ != 0 && nodes[ip].typ != T_DIR
    requires LinkedDir(nodes[dp]) && FreeSlot(nodes[dp].ents, k) && Unnamed(nodes[dp].ents, name)
    ensures Good(WithEntry(WithLinks(nodes, ip, nodes[ip].nlink + 1), dp, k, Dirent(ip, name)), at)
  {
    hide Links, Names, NamesUnique;
    var mid := WithLinks(nodes, ip, nodes[ip].nlink + 1);
    var e := Dirent(ip, name);
    var nodes' := WithEntry(mid, dp, k, e);
    assert DirOk(nodes, dp);
    assert name != ".";
    forall i | 0 < i < |nodes|
      ensures CountOk(nodes', i)
    {
      assert CountOk(nodes, i);
      CountLinks(nodes, ip, nodes[ip].nlink + 1, i);
      EntryLinks(mid, dp, k, e, i);
    }
    PutUnique(nodes[dp].ents, k, e);
    forall d | 0 <= d < |nodes|
      ensures DirOk(nodes', d) && Placed(nodes', at, d)
    {
      assert DirOk(nodes, d) && Placed(nodes, at, d);
    }
    forall p, j | 0 <= p < |nodes'| && LinkedDir(nodes'[p]) && 2 <= j < |nodes'[p].ents|
      ensures PlaceOk(nodes', at, p, j)
    {
      if p != dp || j != k { assert PlaceOk(nodes, at, p, j); }
    }
  }

  /** The same done to a directory that is itself unlinked counts a link that no linked directory holds, whether or not
      the directory itself is freed next. */
  lemma LinkIntoUnlinked(nodes: seq<Node>, at: map<nat, (nat, nat)>, ip: nat, dp: nat, nd: Node,
      any: map<nat, (nat, nat)>)
    requires Good(nodes, at) && 0 < ip < |nodes| && dp < |nodes| && nodes[ip].typ != 0 && nodes[ip].typ != T_DIR
    requires nodes[dp].typ == T_DIR && nodes[dp].nlink <= 0 && !LinkedDir(nd)
    ensures !Good(WithLinks(nodes, ip, nodes[ip].nlink + 1)[dp := nd], any)
  {
    hide Links, Names;
    var mid := WithLinks(nodes, ip, nodes[ip].nlink + 1);
    assert CountOk(nodes, ip);
    CountLinks(nodes, ip, nodes[ip].nlink + 1, ip);
    LinksUpdate(mid, dp, nd, ip);
    assert !CountOk(mid[dp := nd], ip);
  }

  /** A count that has wrapped around to a negative number is wrong. */
  lemma WrappedCount(nodes: seq<Node>, i: nat, any: map<nat, (nat, nat)>)
    requires 0 < i < |nodes| && nodes[i].typ != 0 && nodes[i].nlink < 0
    ensures !Good(nodes, any)
  {
    assert !CountOk(nodes, i);
  }

  /** An entry in use past the first two is not called ".". */
  lemma NotDot(nodes: seq<Node>, at: map<nat, (nat, nat)>, d: nat, k: nat)
    requires Good(nodes, at) && d < |nodes| && nodes[d].typ == T_DIR && 2 <= k < |nodes[d].ents| &&
               nodes[d].ents[k].inum != 0
    ensures nodes[d].ents[k].name != "."
  {
    assert DirOk(nodes, d);
  }

  const HOLE: Dirent := Dirent(0, "")

  /** Clearing an entry of a linked directory takes one link from the inode it names. */
  lemma ClearLinks(nodes: seq<Node>, d: nat, k: nat, i: nat)
    requires d < |nodes| && LinkedDir(nodes[d]) && k < |nodes[d].ents| && i > 0
    ensures Links(WithEntry(nodes, d, k, HOLE), i) == Links(nodes, i) - NamesIt(nodes[d].ents[k], i)
  {
    LinksUpdate(nodes, d, nodes[d].(ents := PutEntry(nodes[d].ents, k, HOLE)), i);
    NamesUpdate(nodes[d].ents, k, HOLE, i);
  }

  /** sys_unlink() of something that is no directory. */
  lemma UnlinkFileGood(nodes: seq<Node>, at: map<nat, (nat, nat)>, dp: nat, k: nat)
    requires Good(nodes, at) && dp < |nodes| && LinkedDir(nodes[dp]) && 2 <= k < |nodes[dp].ents| &&
               nodes[dp].ents[k].inum != 0
    requires nodes[dp].ents[k].inum < |nodes| ==> nodes[nodes[dp].ents[k].inum].typ != T_DIR
    ensures var ip := nodes[dp].ents[k].inum;
            ip < |nodes| && nodes[ip].typ != 0 && nodes[ip].nlink >= 1 &&
            Good(WithLinks(WithEntry(nodes, dp, k, HOLE), ip, nodes[ip].nlink - 1), at)
  {
    hide Links, Names;
    assert PlaceOk(nodes, at, dp, k) && DirOk(nodes, dp);
    var ip := nodes[dp].ents[k].inum;
    NotDot(nodes, at, dp, k);
    NamedLinked(nodes, at, dp, k);
    var mid := WithEntry(nodes, dp, k, HOLE);
    var nodes' := WithLinks(mid, ip, nodes[ip].nlink - 1);
    forall i | 0 < i < |nodes|
      ensures CountOk(nodes', i)
    {
      assert CountOk(nodes, i);
      ClearLinks(nodes, dp, k, i);
      CountLinks(mid, ip, nodes[ip].nlink - 1, i);
    }
    forall d | 0 <= d < |nodes|
      ensures DirOk(nodes', d) && Placed(nodes', at, d)
    {
      assert DirOk(nodes, d) && Placed(nodes, at, d);
    }
    forall p, j | 0 <= p < |nodes'| && LinkedDir(nodes'[p]) && 2 <= j < |nodes'[p].ents|
      ensures PlaceOk(nodes', at, p, j)
    {
      assert PlaceOk(nodes, at, p, j);
    }
  }

  /** Whatever an entry of a linked directory names is in use and linked. */
  lemma NamedLinked(nodes: seq<Node>, at: map<nat, (nat, nat)>, d: nat, k: nat)
    requires Good(nodes, at) && d < |nodes| && LinkedDir(nodes[d]) && k < |nodes[d].ents| &&
               nodes[d].ents[k].name != "."
    requires 0 < nodes[d].ents[k].inum < |nodes|
    ensures var i := nodes[d].ents[k].inum; nodes[i].typ != 0 && nodes[i].nlink >= 1
  {
    hide LinksBelow, Names;
    var i := nodes[d].ents[k].inum;
    NamedCounts(nodes[d].ents, k, i);
    GivesCounts(nodes, |nodes|, d, i);
    assert CountOk(nodes, i);
  }

  // ----------------------------------------------------- removing a directory

  /** The directory that ".." of a linked directory names has an entry for it, unless that is the root. */
  lemma ParentHasName(nodes: seq<Node>, at: map<nat, (nat, nat)>, d: nat)
    requires Good(nodes, at) && d < |nodes| && LinkedDir(nodes[d])
    ensures var p := nodes[d].ents;
              |p| >= 2 && p[0].name == "." && p[1].inum < |nodes| &&
              (p[1].inum == ROOTINO || !NoNames(nodes[p[1].inum].ents))
  {
    hide CountOk;
    assert DirOk(nodes, d) && Placed(nodes, at, d);
    if d != ROOTINO { assert PlaceOk(nodes, at, at[d].0, at[d].1); }
  }

  /** An entry of a linked directory that names the directory found at (dp, k), other than through ".", is that one:
      a ".." would belong to a child, and it has none. */
  lemma OnlyName(nodes: seq<Node>, at: map<nat, (nat, nat)>, dp: nat, k: nat, ip: nat, d: nat, j: nat)
    requires Good(nodes, at) && IsEntry(nodes, dp, k, ip) && nodes[ip].typ == T_DIR && NoNames(nodes[ip].ents)
    requires d < |nodes| && LinkedDir(nodes[d]) && j < |nodes[d].ents| && NamesIt(nodes[d].ents[j], ip) == 1
    ensures d == dp && j == k
  {
    hide Good, NoNames, PlaceOk;
    ParentHasName(nodes, at, d);
    OnePlace(nodes, at, dp, k, ip);
    if j >= 2 { OnePlace(nodes, at, d, j, ip); }
  }

  lemma OnePlace(nodes: seq<Node>, at: map<nat, (nat, nat)>, dp: nat, k: nat, ip: nat)
    requires Good(nodes, at) && IsEntry(nodes, dp, k, ip) && nodes[ip].typ == T_DIR
    ensures ip != ROOTINO && ip in at && at[ip] == (dp, k)
  {
    hide CountOk, DirOk, Placed;
    assert PlaceOk(nodes, at, dp, k);
  }

  /** Entry `k` of linked directory `dp` names inode `ip`. */
  ghost predicate IsEntry(nodes: seq<Node>, dp: nat, k: nat, ip: nat) {
    && dp < |nodes| && LinkedDir(nodes[dp]) && 2 <= k < |nodes[dp].ents| && nodes[dp].ents[k].inum == ip
    && 0 < ip < |nodes|
  }

  /** An empty directory has one link: its name. */
  lemma EmptyDirOneLink(nodes: seq<Node>, at: map<nat, (nat, nat)>, dp: nat, k: nat, ip: nat)
    requires Good(nodes, at) && IsEntry(nodes, dp, k, ip) && nodes[ip].typ == T_DIR && NoNames(nodes[ip].ents)
    ensures nodes[ip].nlink == 1 && ip != dp
  {
    hide LinksBelow, Names;
    NotDot(nodes, at, dp, k);
    forall d | 0 <= d < |nodes| && d != dp
      ensures Gives(nodes[d], ip) == 0
    {
      if LinkedDir(nodes[d]) {
        forall j | 0 <= j < |nodes[d].ents|
          ensures NamesIt(nodes[d].ents[j], ip) == 0
        {
          if NamesIt(nodes[d].ents[j], ip) == 1 { OnlyName(nodes, at, dp, k, ip, d, j); }
        }
        NamesNone(nodes[d].ents, ip);
      }
    }
    LinksOnly(nodes, dp, ip);
    forall j | 0 <= j < |nodes[dp].ents| && j != k
      ensures NamesIt(nodes[dp].ents[j], ip) == 0
    {
      if NamesIt(nodes[dp].ents[j], ip) == 1 { OnlyName(nodes, at, dp, k, ip, dp, j); }
    }
    NamesOne(nodes[dp].ents, k, ip);
    assert CountOk(nodes, ip);
  }

  lemma {:induction false} TwoGive(nodes: seq<Node>, n: nat, a: nat, b: nat, i: nat)
    requires a < n <= |nodes| && b < n && a != b
    ensures Gives(nodes[a], i) + Gives(nodes[b], i) <= LinksBelow(nodes, n, i)
  {
    if a == n - 1 { GivesCounts(nodes, n - 1, b, i); }
    else if b == n - 1 { GivesCounts(nodes, n - 1, a, i); }
    else { TwoGive(nodes, n - 1, a, b, i); }
  }

  /** What an empty directory names: its parent, once. */
  lemma EmptyDirNames(nodes: seq<Node>, at: map<nat, (nat, nat)>, dp: nat, k: nat, ip: nat, i: nat)
    requires Good(nodes, at) && IsEntry(nodes, dp, k, ip) && nodes[ip].typ == T_DIR && NoNames(nodes[ip].ents) && i > 0
    ensures Names(nodes[ip].ents, i) == if i == dp then 1 else 0
  {
    var ents := nodes[ip].ents;
    assert PlaceOk(nodes, at, dp, k) && DirOk(nodes, ip);
    forall j | 0 <= j < |ents| && j != 1
      ensures NamesIt(ents[j], i) == 0
    {}
    if i == dp { NamesOne(ents, 1, i); } else { NamesNone(ents, i); }
  }

  /** The parent of an empty directory has a link besides the one from "..". */
  lemma ParentStays(nodes: seq<Node>, at: map<nat, (nat, nat)>, dp: nat, k: nat, ip: nat)
    requires Good(nodes, at) && IsEntry(nodes, dp, k, ip) && nodes[ip].typ == T_DIR && NoNames(nodes[ip].ents)
    ensures nodes[dp].nlink >= 2
  {
    hide LinksBelow, Names;
    EmptyDirOneLink(nodes, at, dp, k, ip);
    EmptyDirNames(nodes, at, dp, k, ip, dp);
    assert DirOk(nodes, dp) && Placed(nodes, at, dp) && CountOk(nodes, dp);
    var p, j := if dp == ROOTINO then ROOTINO else at[dp].0, if dp == ROOTINO then 1 else at[dp].1;
    assert PlaceOk(nodes, at, dp, k) && DirOk(nodes, p);
    if dp != ROOTINO { NotDot(nodes, at, p, j); }
    NamedCounts(nodes[p].ents, j, dp);
    TwoGive(nodes, |nodes|, p, ip, dp);
  }

  function Unlinked(nodes: seq<Node>, dp: nat, k: nat, ip: nat): seq<Node>
    requires dp < |nodes| && ip < |nodes| && k <= |nodes[dp].ents|
  {
    WithLinks(WithLinks(WithEntry(nodes, dp, k, HOLE), dp, nodes[dp].nlink - 1), ip, nodes[ip].nlink - 1)
  }

  lemma UnlinkDirLinks(nodes: seq<Node>, at: map<nat, (nat, nat)>, dp: nat, k: nat, ip: nat, i: nat)
    requires Good(nodes, at) && IsEntry(nodes, dp, k, ip) && nodes[ip].typ == T_DIR && NoNames(nodes[ip].ents) &&
               0 < i < |nodes|
    ensures CountOk(Unlinked(nodes, dp, k, ip), i)
  {
    hide Links, Names;
    EmptyDirOneLink(nodes, at, dp, k, ip);
    EmptyDirNames(nodes, at, dp, k, ip, i);
    ParentStays(nodes, at, dp, k, ip);
    NotDot(nodes, at, dp, k);
    assert CountOk(nodes, i);
    var n1 := WithEntry(nodes, dp, k, HOLE);
    var n2 := WithLinks(n1, dp, nodes[dp].nlink - 1);
    ClearLinks(nodes, dp, k, i);
    CountLinks(n1, dp, nodes[dp].nlink - 1, i);
    LinksUpdate(n2, ip, n2[ip].(nlink := nodes[ip].nlink - 1), i);
  }

  /** sys_unlink() of an empty directory. */
  lemma UnlinkDirGood(nodes: seq<Node>, at: map<nat, (nat, nat)>, dp: nat, k: nat, ip: nat)
    requires Good(nodes, at) && IsEntry(nodes, dp, k, ip) && nodes[ip].typ == T_DIR && NoNames(nodes[ip].ents)
    ensures Good(Unlinked(nodes, dp, k, ip), at - {ip})
  {
    hide Links, Names;
    var nodes' := Unlinked(nodes, dp, k, ip);
    EmptyDirOneLink(nodes, at, dp, k, ip);
    ParentStays(nodes, at, dp, k, ip);
    assert PlaceOk(nodes, at, dp, k);
    forall i | 0 < i < |nodes|
      ensures CountOk(nodes', i)
    {
      UnlinkDirLinks(nodes, at, dp, k, ip, i);
    }
    forall d | 0 <= d < |nodes|
      ensures DirOk(nodes', d) && Placed(nodes', at - {ip}, d)
    {
      assert DirOk(nodes, d) && Placed(nodes, at, d);
    }
    forall p, j | 0 <= p < |nodes'| && LinkedDir(nodes'[p]) && 2 <= j < |nodes'[p].ents|
      ensures PlaceOk(nodes', at - {ip}, p, j)
    {
      assert PlaceOk(nodes, at, p, j);
    }
  }

  // -------------------------------------------------------- freeing and creating

  /** iput() frees an inode that nothing links to. */
  lemma FreeGood(nodes: seq<Node>, at: map<nat, (nat, nat)>, i: nat)
    requires Good(nodes, at) && 0 < i < |nodes| && nodes[i].nlink == 0
    ensures Good(nodes[i := FREE], at)
  {
    hide Links, Names;
    var nodes' := nodes[i := FREE];
    forall j | 0 < j < |nodes|
      ensures CountOk(nodes', j)
    {
      assert CountOk(nodes, j);
      LinksUpdate(nodes, i, FREE, j);
    }
    forall d | 0 <= d < |nodes|
      ensures DirOk(nodes', d) && Placed(nodes', at, d)
    {
      assert DirOk(nodes, d) && Placed(nodes, at, d);
    }
    forall p, j | 0 <= p < |nodes'| && LinkedDir(nodes'[p]) && 2 <= j < |nodes'[p].ents|
      ensures PlaceOk(nodes', at, p, j)
    {
      assert PlaceOk(nodes, at, p, j);
    }
  }

  /** create() of a file or device. */
  lemma CreateFileGood(nodes: seq<Node>, at: map<nat, (nat, nat)>, i: nat, typ: nat, dp: nat, k: nat, name: string)
    requires Good(nodes, at) && 0 < i < |nodes| && nodes[i] == FREE && typ != 0 && typ != T_DIR
    requires dp < |nodes| && LinkedDir(nodes[dp]) && FreeSlot(nodes[dp].ents, k) && Unnamed(nodes[dp].ents, name)
    ensures Good(WithEntry(nodes[i := Node(typ, 1, [])], dp, k, Dirent(i, name)), at)
  {
    hide Links, Names, NamesUnique;
    var mid := nodes[i := Node(typ, 1, [])];
    var e := Dirent(i, name);
    var nodes' := WithEntry(mid, dp, k, e);
    assert DirOk(nodes, dp);
    forall j | 0 < j < |nodes|
      ensures CountOk(nodes', j)
    {
      assert CountOk(nodes, j);
      LinksUpdate(nodes, i, Node(typ, 1, []), j);
      EntryLinks(mid, dp, k, e, j);
    }
    PutUnique(nodes[dp].ents, k, e);
    forall d | 0 <= d < |nodes|
      ensures DirOk(nodes', d) && Placed(nodes', at, d)
    {
      assert DirOk(nodes, d) && Placed(nodes, at, d);
    }
    forall p, j | 0 <= p < |nodes'| && LinkedDir(nodes'[p]) && 2 <= j < |nodes'[p].ents|
      ensures PlaceOk(nodes', at, p, j)
    {
      if p != dp || j != k { assert PlaceOk(nodes, at, p, j); }
    }
  }

  /** A file or device made in an unlinked directory has a count that no linked directory accounts for, whether or not
      the directory itself is freed next. */
  lemma CreateFileIntoUnlinked(nodes: seq<Node>, at: map<nat, (nat, nat)>, i: nat, typ: nat, dp: nat, nd: Node,
      any: map<nat, (nat, nat)>)
    requires Good(nodes, at) && 0 < i < |nodes| && nodes[i] == FREE && typ != 0 && typ != T_DIR
    requires dp < |nodes| && nodes[dp].typ == T_DIR && nodes[dp].nlink <= 0 && !LinkedDir(nd)
    ensures !Good(nodes[i := Node(typ, 1, [])][dp := nd], any)
  {
    hide Links, Names;
    var mid := nodes[i := Node(typ, 1, [])];
    assert CountOk(nodes, i);
    LinksUpdate(nodes, i, Node(typ, 1, []), i);
    LinksUpdate(mid, dp, nd, i);
    assert !CountOk(mid[dp := nd], i);
  }

  function NewDir(i: nat, dp: nat): Node { Node(T_DIR, 1, [Dirent(i, "."), Dirent(dp, "..")]) }

  lemma NewDirNames(i: nat, dp: nat, j: nat)
    requires j > 0
    ensures Gives(NewDir(i, dp), j) == if j == dp then 1 else 0
  {
    var ents := NewDir(i, dp).ents;
    if j == dp { NamesOne(ents, 1, j); } else { NamesNone(ents, j); }
  }

  function MadeDir(nodes: seq<Node>, i: nat, dp: nat, k: nat, name: string): seq<Node>
    requires i < |nodes| && dp < |nodes| && k <= |nodes[dp].ents| && i != dp
  {
    WithLinks(WithEntry(nodes[i := NewDir(i, dp)], dp, k, Dirent(i, name)), dp, nodes[dp].nlink + 1)
  }

  lemma MadeDirLinks(nodes: seq<Node>, at: map<nat, (nat, nat)>, i: nat, dp: nat, k: nat, name: string, j: nat)
    requires Good(nodes, at) && 0 < i < |nodes| && nodes[i] == FREE && 0 < j < |nodes|
    requires dp < |nodes| && LinkedDir(nodes[dp]) && FreeSlot(nodes[dp].ents, k) && Unnamed(nodes[dp].ents, name)
    ensures CountOk(MadeDir(nodes, i, dp, k, name), j)
  {
    hide Links, Names, NamesUnique;
    var mid := nodes[i := NewDir(i, dp)];
    assert CountOk(nodes, j) && DirOk(nodes, dp);
    LinksUpdate(nodes, i, NewDir(i, dp), j);
    NewDirNames(i, dp, j);
    EntryLinks(mid, dp, k, Dirent(i, name), j);
    CountLinks(WithEntry(mid, dp, k, Dirent(i, name)), dp, nodes[dp].nlink + 1, j);
  }

  /** create() of a directory. */
  lemma CreateDirGood(nodes: seq<Node>, at: map<nat, (nat, nat)>, i: nat, dp: nat, k: nat, name: string)
    requires Good(nodes, at) && 0 < i < |nodes| && nodes[i] == FREE
    requires dp < |nodes| && LinkedDir(nodes[dp]) && FreeSlot(nodes[dp].ents, k) && Unnamed(nodes[dp].ents, name)
    ensures Good(MadeDir(nodes, i, dp, k, name), at[i := (dp, k)])
  {
    hide Links, Names, NamesUnique;
    var nodes', at' := MadeDir(nodes, i, dp, k, name), at[i := (dp, k)];
    assert DirOk(nodes, dp) && CountOk(nodes, i);
    forall j | 0 < j < |nodes|
      ensures CountOk(nodes', j)
    {
      MadeDirLinks(nodes, at, i, dp, k, name, j);
    }
    PutUnique(nodes[dp].ents, k, Dirent(i, name));
    DotsUnique(i, dp);
    forall d | 0 <= d < |nodes|
      ensures DirOk(nodes', d) && Placed(nodes', at', d)
    {
      assert DirOk(nodes, d) && Placed(nodes, at, d);
    }
    forall p, j | 0 <= p < |nodes'| && LinkedDir(nodes'[p]) && 2 <= j < |nodes'[p].ents|
      ensures PlaceOk(nodes', at', p, j)
    {
      MadeDirPlace(nodes, at, i, dp, k, name, p, j);
    }
  }

  lemma MadeDirPlace(nodes: seq<Node>, at: map<nat, (nat, nat)>, i: nat, dp: nat, k: nat, name: string, p: nat, j: nat)
    requires Good(nodes, at) && 0 < i < |nodes| && nodes[i] == FREE
    requires dp < |nodes| && LinkedDir(nodes[dp]) && FreeSlot(nodes[dp].ents, k) && p < |nodes|
    requires var n := MadeDir(nodes, i, dp, k, name)[p]; LinkedDir(n) && 2 <= j < |n.ents|
    ensures PlaceOk(MadeDir(nodes, i, dp, k, name), at[i := (dp, k)], p, j)
  {
    hide CountOk, DirOk, Placed;
    if p != dp || j != k {
      assert PlaceOk(nodes, at, p, j);
      NotNamedFree(nodes, at, p, j, i);
    }
  }

  /** A directory made in an unlinked directory links that one again, though no entry leads to it: it will never be
      freed. */
  lemma CreateDirIntoUnlinked(nodes: seq<Node>, at: map<nat, (nat, nat)>, i: nat, dp: nat, k: nat, name: string,
      any: map<nat, (nat, nat)>)
    requires Good(nodes, at) && 0 < i < |nodes| && nodes[i] == FREE
    requires dp < |nodes| && nodes[dp].typ == T_DIR && nodes[dp].nlink <= 0 && FreeSlot(nodes[dp].ents, k)
    ensures LinkedDir(MadeDir(nodes, i, dp, k, name)[dp]) && !Good(MadeDir(nodes, i, dp, k, name), any)
  {
    hide Links, Names, NamesUnique;
    assert CountOk(nodes, dp) && DirOk(nodes, dp);
    var nodes' := MadeDir(nodes, i, dp, k, name);
    if Placed(nodes', any, dp) {
      var p, j := any[dp].0, any[dp].1;
      if p != dp && p != i {
        NotDot(nodes, at, p, j);
        NamedLinked(nodes, at, p, j);
      }
    }
  }

  lemma DotsUnique(i: nat, dp: nat)
    ensures NamesUnique(NewDir(i, dp).ents)
  {}

  /** No entry of a linked directory names a free inode. */
  lemma NotNamedFree(nodes: seq<Node>, at: map<nat, (nat, nat)>, p: nat, j: nat, i: nat)
    requires Good(nodes, at) && p < |nodes| && LinkedDir(nodes[p]) && 2 <= j < |nodes[p].ents| && 0 < i < |nodes| &&
               nodes[i] == FREE
    ensures nodes[p].ents[j].inum != i
  {
    hide Links, Names;
    if nodes[p].ents[j].inum != 0 {
      NotDot(nodes, at, p, j);
      assert PlaceOk(nodes, at, p, j);
      NamedLinked(nodes, at, p, j);
    }
  }

  // -------------------------------------------------------------- the name map

  /** A directory as a map from names to inode numbers. */
  function NameMap(ents: seq<Dirent>): map<string, nat> {
    if ents == [] then map[] else
      var e := ents[|ents| - 1];
      if e.inum == 0 then NameMap(ents[..|ents| - 1]) else NameMap(ents[..|ents| - 1])[e.name := e.inum]
  }

  lemma {:induction false} NameMapAt(ents: seq<Dirent>, k: nat)
    requires NamesUnique(ents) && k < |ents| && ents[k].inum != 0
    ensures ents[k].name in NameMap(ents) && NameMap(ents)[ents[k].name] == ents[k].inum
  {
    var n := |ents| - 1;
    if k < n {
      assert ents[..n][k] == ents[k];
      NameMapAt(ents[..n], k);
    }
  }

  lemma {:induction false} NameMapFrom(ents: seq<Dirent>, name: string) returns (k: nat)
    requires name in NameMap(ents)
    ensures k < |ents| && ents[k] == Dirent(NameMap(ents)[name], name) && ents[k].inum != 0
  {
    var n := |ents| - 1;
    if ents[n].inum != 0 && ents[n].name == name {
      k := n;
    } else {
      k := NameMapFrom(ents[..n], name);
    }
  }

  /** dirlink() adds a binding. */
  lemma NameMapPut(ents: seq<Dirent>, k: nat, e: Dirent)
    requires NamesUnique(ents) && FreeSlot(ents, k) && Unnamed(ents, e.name) && e.inum != 0
    ensures NameMap(PutEntry(ents, k, e)) == NameMap(ents)[e.name := e.inum]
  {
    var ents' := PutEntry(ents, k, e);
    PutUnique(ents, k, e);
    NameMapAt(ents', k);
    forall x | x in NameMap(ents')
      ensures x in NameMap(ents)[e.name := e.inum] && NameMap(ents)[e.name := e.inum][x] == NameMap(ents')[x]
    {
      var j := NameMapFrom(ents', x);
      if j != k { NameMapAt(ents, j); }
    }
    forall x | x in NameMap(ents) && x != e.name
      ensures x in NameMap(ents')
    {
      var j := NameMapFrom(ents, x);
      NameMapAt(ents', j);
    }
  }

  /** sys_unlink() removes one. */
  lemma NameMapClear(ents: seq<Dirent>, k: nat)
    requires NamesUnique(ents) && k < |ents| && ents[k].inum != 0
    ensures NameMap(ents[k := HOLE]) == NameMap(ents) - {ents[k].name}
  {
    var ents' := ents[k := HOLE];
    forall x | x in NameMap(ents')
      ensures x in NameMap(ents) - {ents[k].name} && NameMap(ents)[x] == NameMap(ents')[x]
    {
      var j := NameMapFrom(ents', x);
      NameMapAt(ents, j);
    }
    forall x | x in NameMap(ents) && x != ents[k].name
      ensures x in NameMap(ents')
    {
      var j := NameMapFrom(ents, x);
      NameMapAt(ents', j);
    }
  }
}
