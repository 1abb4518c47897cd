// The stacked tree: one writable upper tree over read-only lower trees, and the
// ordinary tree a user of the mount sees.
//
// Layer 0 is the upper tree.  Lower layer k (1 <= k) has root roots[k - 1].

module Tree {

  datatype Option<+T> = None | Some(value: T)

  /** A non-empty run of characters between slashes. */
  predicate IsComponent(s: string) {
    s != "" && '/' !in s && '\0' !in s
  }

  /** The name of a directory entry; "." and ".." are not entries. */
  type Name = s: string | IsComponent(s) && s != "." && s != ".." witness "a"

  type Path = seq<Name>

  /** An absolute redirect never names a layer root. */
  type AbsPath = p: Path | p != [] witness ["a"]

  /** Where the lower layers of a directory are to be looked up: a sibling name,
      or a path from the root of each layer. */
  datatype Redirect = Rel(name: Name) | Abs(path: AbsPath)

  /** An object on an underlying layer.  File covers every non-directory; id stands
      for the inode and its content.  isOpaque, redirect and origin are the extended
      attributes of a directory. */
  datatype Node =
    | File(id: nat)
    | Whiteout
    | Dir(isOpaque: bool, redirect: Option<Redirect>, origin: bool, children: map<Name, Node>)

  /** A directory entry found on one lower layer. */
  datatype Entry = Entry(layer: nat, node: Node)

  /** What the overlay holds for one path: the upper object, and the lower objects
      merged below it, topmost first. */
  datatype Stack = Stack(upper: Option<Node>, lowers: seq<Entry>)

  /** What the layers below the current one are to be searched for. */
  datatype Next = Stop | Go(target: Redirect)

  datatype Found = Found(node: Option<Node>, next: Next)

  /** What a user sees at a path. */
  datatype Obj = Absent | AFile(id: nat) | ADir

  // ---------------------------------------------------------------- one layer

  function EntryOf(base: Node, n: Name): Option<Node> {
    if base.Dir? && n in base.children then Some(base.children[n]) else None
  }

  function NextName(d: Node, n: Name): Redirect
    requires d.Dir?
  {
    if d.redirect.Some? then d.redirect.value else Rel(n)
  }

  /** Looks up one name, which is the last element of what is searched for. */
  function Single(base: Node, n: Name, isDir: bool): Found {
    match EntryOf(base, n)
    case None => Found(None, Go(Rel(n)))
    case Some(Whiteout) => Found(None, Stop)
    case Some(File(id)) => Found(if isDir then None else Some(File(id)), Stop)
    case Some(d) => Found(Some(d), if d.isOpaque then Stop else Go(NextName(d, n)))
  }

  /** The path for the next layer once directory d has been met under name c after
      the prefix pre. */
  function NextPrefix(d: Node, pre: Path, c: Name): AbsPath
    requires d.Dir?
  {
    if d.isOpaque then pre + [c]
    else
      match NextName(d, c)
      case Rel(r) => pre + [r]
      case Abs(a) => a
  }

  function NextStop(d: Node, stop: bool): bool
    requires d.Dir?
  {
    if d.isOpaque then true
    else if d.redirect.Some? && d.redirect.value.Abs? then false
    else stop
  }

  /** Walks comps down from base.  pre is what the elements walked so far are called
      on the next layer, stop whether one of them was opaque. */
  function Walk(base: Node, pre: Path, comps: AbsPath, isDir: bool, stop: bool): Found
    decreases |comps|
  {
    match EntryOf(base, comps[0])
    case None => Found(None, if stop then Stop else Go(Abs(pre + comps)))
    case Some(Whiteout) => Found(None, Stop)
    case Some(File(id)) => Found(if |comps| == 1 && !isDir then Some(File(id)) else None, Stop)
    case Some(d) =>
      var pre' := NextPrefix(d, pre, comps[0]);
      var stop' := NextStop(d, stop);
      if |comps| == 1 then Found(Some(d), if stop' then Stop else Go(Abs(pre')))
      else Walk(d, pre', comps[1..], isDir, stop')
  }

  // ------------------------------------------------------------- all the layers

  function Hit(f: Found, layer: nat): seq<Entry> {
    if f.node.Some? then [Entry(layer, f.node.value)] else []
  }

  predicate IsDirNow(f: Found, isDir: bool) {
    isDir || (f.node.Some? && f.node.value.Dir?)
  }

  /** Searches layers k + 1, k + 2, ... from their roots. */
  function LookupRoots(roots: seq<Node>, k: nat, path: AbsPath, isDir: bool): seq<Entry>
    decreases |roots| - k
  {
    if k >= |roots| then []
    else
      var f := Walk(roots[k], [], path, isDir, false);
      Hit(f, k + 1) +
      match f.next
      case Go(Abs(p)) => LookupRoots(roots, k + 1, p, IsDirNow(f, isDir))
      case _ => []
  }

  /** Searches the lower directories of a parent, and the layer roots from the point
      where an absolute redirect is met. */
  function LookupStack(roots: seq<Node>, poe: seq<Entry>, n: Name, isDir: bool): seq<Entry>
    decreases |poe|
  {
    if poe == [] then []
    else
      var f := Single(poe[0].node, n, isDir);
      Hit(f, poe[0].layer) +
      match f.next
      case Stop => []
      case Go(Rel(m)) => LookupStack(roots, poe[1..], m, IsDirNow(f, isDir))
      case Go(Abs(p)) => LookupRoots(roots, poe[0].layer, p, IsDirNow(f, isDir))
  }

  function LookupTarget(roots: seq<Node>, poe: seq<Entry>, t: Redirect): seq<Entry> {
    match t
    case Rel(m) => LookupStack(roots, poe, m, true)
    case Abs(p) => LookupRoots(roots, 0, p, true)
  }

  /** The stack of the child called n, given the upper entry of that name and the
      parent's lower directories. */
  function Resolve(roots: seq<Node>, poe: seq<Entry>, n: Name, up: Option<Node>): Stack {
    match up
    case None => Stack(None, LookupStack(roots, poe, n, false))
    case Some(Whiteout) => Stack(None, [])
    case Some(File(id)) => Stack(Some(File(id)), [])
    case Some(d) => Stack(Some(d), if d.isOpaque then [] else LookupTarget(roots, poe, NextName(d, n)))
  }

  function UpperEntry(up: Option<Node>, n: Name): Option<Node> {
    if up.Some? then EntryOf(up.value, n) else None
  }

  function Child(roots: seq<Node>, s: Stack, n: Name): Stack {
    Resolve(roots, s.lowers, n, UpperEntry(s.upper, n))
  }

  function Descend(roots: seq<Node>, s: Stack, p: Path): Stack
    decreases |p|
  {
    if p == [] then s else Descend(roots, Child(roots, s, p[0]), p[1..])
  }

  function RootEntries(roots: seq<Node>, k: nat): seq<Entry>
    decreases |roots| - k
  {
    if k >= |roots| then [] else [Entry(k + 1, roots[k])] + RootEntries(roots, k + 1)
  }

  function StackAt(upper: Node, roots: seq<Node>, p: Path): Stack {
    Descend(roots, Stack(Some(upper), RootEntries(roots, 0)), p)
  }

  function NodeKind(n: Node): Obj {
    match n
    case File(id) => AFile(id)
    case Whiteout => Absent
    case Dir(_, _, _, _) => ADir
  }

  function Kind(s: Stack): Obj {
    if s.upper.Some? then NodeKind(s.upper.value)
    else if s.lowers != [] then NodeKind(s.lowers[0].node)
    else Absent
  }

  /** The merged tree. */
  function View(upper: Node, roots: seq<Node>, p: Path): Obj {
    Kind(StackAt(upper, roots, p))
  }

  // --------------------------------------------------------------- the upper tree

  function UpperAt(u: Node, p: Path): Option<Node>
    decreases |p|
  {
    if p == [] then Some(u)
    else if EntryOf(u, p[0]).Some? then UpperAt(u.children[p[0]], p[1..])
    else None
  }

  predicate UpperDir(u: Node, p: Path) {
    UpperAt(u, p).Some? && UpperAt(u, p).value.Dir?
  }

  function SetEntry(d: Node, n: Name, v: Option<Node>): Node
    requires d.Dir?
  {
    d.(children := if v.Some? then d.children[n := v.value] else d.children - {n})
  }

  /** Makes v the entry n of the upper directory at p. */
  function Put(u: Node, p: Path, n: Name, v: Option<Node>): Node
    requires UpperDir(u, p)
    decreases |p|
  {
    if p == [] then SetEntry(u, n, v)
    else u.(children := u.children[p[0] := Put(u.children[p[0]], p[1..], n, v)])
  }

}
