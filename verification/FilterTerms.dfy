/** Filters as terms: what an operation is, what it carries and which filters it is built on. */
module FilterTerms {
  import opened Objects
  import opened ByteOrder
  import opened LazyRefs

  /** A stored object, named by its content: a blob, or a tree of named objects. Whether an entry is
      marked as a tree follows from what it refers to. */
  datatype Obj =
    | Leaf(data: string)
    | Node(names: seq<string>, kids: seq<Obj>)

  datatype Tag =
    | Nop | Empty | Fold | Paths | Unlink | Export | Index | Invert | Prune
    | Adapt | Embed | Hook | Prefix | Subdir | Workspace | Stored | TreeDeref | TreeRef | Pattern
    | Author | Committer | File | Message
    | Link | Insert | RegexReplace | Downstack | Unapply | Rev | Squash
    | Compose | Chain | Subtract | Exclude | Select | Pin | Starlark | TreeId | Meta

  datatype LinkMode = Embedded | Snapshot | Pointer

  /** What an insertion puts in place: a text, or an object that is already stored. */
  datatype Insertion = Inline(text: string) | ById(obj: Obj)

  datatype RevMatch = AncestorStrict | AncestorInclusive | Equal | Default

  datatype Arm = Arm(rule: RevMatch, ref: LazyRef)

  datatype Rule = Rule(pattern: string, replacement: string)

  /** What an operation carries besides the filters it is built on. */
  datatype Data =
    | Nothing
    | Strings(params: seq<string>)
    | Mode(mode: Option<LinkMode>)
    | Content(path: string, content: Insertion)
    | Rules(rules: seq<Rule>)
    | Ref(ref: LazyRef)
    | Arms(arms: seq<Arm>)
    | Refs(refs: seq<LazyRef>)
    | Attributes(attributes: seq<Pair<string>>)

  /** Squash maps are ordered by reference: ids before names. */
  function OrderKey(r: LazyRef): string {
    if r.Resolved? then "0" + r.id else "1" + r.name
  }

  /** References with what belongs to them, under their keys. */
  function Slots<T>(refs: seq<LazyRef>, vs: seq<T>): (ps: seq<Pair<(LazyRef, T)>>)
    requires |refs| == |vs|
    ensures |ps| == |refs| && forall i :: 0 <= i < |ps| ==> ps[i] == Pair(OrderKey(refs[i]), (refs[i], vs[i]))
  {
    seq(|refs|, i requires 0 <= i < |refs| => Pair(OrderKey(refs[i]), (refs[i], vs[i])))
  }

  predicate IsFlag(tag: Tag) {
    tag in {Nop, Empty, Fold, Paths, Unlink, Export, Index, Invert, Prune}
  }

  /** How many texts an operation that carries nothing else has; 0 for the others. */
  function TextArity(tag: Tag): nat {
    if tag in {Adapt, Embed, Hook, Prefix, Subdir, Workspace, Stored, TreeDeref, TreeRef, Pattern} then 1
    else if tag in {Author, Committer, File, Message} then 2
    else 0
  }

  /** What an operation must carry, with `n` filters to be built on. */
  predicate Fits(tag: Tag, data: Data, n: nat) {
    if IsFlag(tag) then data == Nothing && n == 0
    else if TextArity(tag) > 0 then data.Strings? && |data.params| == TextArity(tag) && n == 0
    else
      match tag
      case Link => data.Mode? && n == 0
      case Insert => data.Content? && n == 0
      case RegexReplace => data.Rules? && n == 0
      case Downstack => data.Ref? && Proper(data.ref) && n == 0
      case Unapply => data.Ref? && Proper(data.ref) && n == 1
      case Rev => data.Arms? && |data.arms| == n && forall a :: a in data.arms ==> Proper(a.ref)
      case Squash =>
        || (data == Nothing && n == 0)
        || (data.Refs? && |data.refs| == n && Increasing(Slots(data.refs, data.refs))
            && forall r :: r in data.refs ==> Proper(r))
      case Compose => data == Nothing
      case Chain => data == Nothing
      case Subtract => data == Nothing && n == 2
      case Starlark => data.Strings? && |data.params| == 1 && n == 1
      case TreeId => data.Strings? && |data.params| == 1 && n == 1
      case Meta => data.Attributes? && Increasing(data.attributes) && n == 1
      case _ => data == Nothing && n == 1
  }

  /** A filter unfolded into a tree of operations. A sentinel is a node of its own with a given id. */
  datatype Term =
    | Op(tag: Tag, data: Data, kids: seq<Term>)
    | Sentinel(node: nat, id: Obj)

  /** Every operation carries what it must, and there is no sentinel. */
  predicate WellFormed(t: Term) {
    t.Op? && Fits(t.tag, t.data, |t.kids|) && forall i :: 0 <= i < |t.kids| ==> WellFormed(t.kids[i])
  }

  // ------------------------------------------------------------------ names

  function Title(tag: Tag): string {
    match tag
    case Nop => "nop"
    case Empty => "empty"
    case Fold => "fold"
    case Paths => "paths"
    case Unlink => "unlink"
    case Export => "export"
    case Index => "index"
    case Invert => "invert"
    case Prune => "prune"
    case Adapt => "adapt"
    case Embed => "embed"
    case Hook => "hook"
    case Prefix => "prefix"
    case Subdir => "subdir"
    case Workspace => "workspace"
    case Stored => "stored"
    case TreeDeref => "treederef"
    case TreeRef => "treeref"
    case Pattern => "pattern"
    case Author => "author"
    case Committer => "committer"
    case File => "file"
    case Message => "message"
    case Link => "link"
    case Insert => "insert"
    case RegexReplace => "regex_replace"
    case Downstack => "downstack"
    case Unapply => "unapply"
    case Rev => "rev"
    case Squash => "squash"
    case Compose => "compose"
    case Chain => "chain"
    case Subtract => "subtract"
    case Exclude => "exclude"
    case Select => "select"
    case Pin => "pin"
    case Starlark => "starlark"
    case TreeId => "treeid"
    case Meta => "meta"
  }

  /** The operation a name stands for. */
  function TagOf(name: string): Option<Tag> {
    match |name|
    case 3 =>
      if name == "nop" then Some(Nop)
      else if name == "rev" then Some(Rev)
      else if name == "pin" then Some(Pin)
      else None
    case 4 =>
      if name == "fold" then Some(Fold)
      else if name == "hook" then Some(Hook)
      else if name == "file" then Some(File)
      else if name == "link" then Some(Link)
      else if name == "meta" then Some(Meta)
      else None
    case 5 =>
      if name == "empty" then Some(Empty)
      else if name == "paths" then Some(Paths)
      else if name == "index" then Some(Index)
      else if name == "prune" then Some(Prune)
      else if name == "adapt" then Some(Adapt)
      else if name == "embed" then Some(Embed)
      else if name == "chain" then Some(Chain)
      else None
    case 6 =>
      if name == "unlink" then Some(Unlink)
      else if name == "export" then Some(Export)
      else if name == "invert" then Some(Invert)
      else if name == "prefix" then Some(Prefix)
      else if name == "subdir" then Some(Subdir)
      else if name == "stored" then Some(Stored)
      else if name == "author" then Some(Author)
      else if name == "insert" then Some(Insert)
      else if name == "squash" then Some(Squash)
      else if name == "select" then Some(Select)
      else if name == "treeid" then Some(TreeId)
      else None
    case 7 =>
      if name == "treeref" then Some(TreeRef)
      else if name == "pattern" then Some(Pattern)
      else if name == "message" then Some(Message)
      else if name == "unapply" then Some(Unapply)
      else if name == "compose" then Some(Compose)
      else if name == "exclude" then Some(Exclude)
      else None
    case 8 =>
      if name == "subtract" then Some(Subtract)
      else if name == "starlark" then Some(Starlark)
      else None
    case 9 =>
      if name == "workspace" then Some(Workspace)
      else if name == "treederef" then Some(TreeDeref)
      else if name == "committer" then Some(Committer)
      else if name == "downstack" then Some(Downstack)
      else None
    case 13 =>
      if name == "regex_replace" then Some(RegexReplace)
      else None
    case _ => None
  }

  lemma FlagTitleTells(tag: Tag)
    requires IsFlag(tag)
    ensures TagOf(Title(tag)) == Some(tag)
  {
  }

  lemma TextTitleTells(tag: Tag)
    requires TextArity(tag) == 1
    ensures TagOf(Title(tag)) == Some(tag)
  {
  }

  lemma TextsTitleTells(tag: Tag)
    requires TextArity(tag) == 2
    ensures TagOf(Title(tag)) == Some(tag)
  {
  }

  lemma OtherTitleTells(tag: Tag)
    requires !IsFlag(tag) && TextArity(tag) == 0
    ensures TagOf(Title(tag)) == Some(tag)
  {
  }

  /** No two operations have the same name. */
  lemma TitleTells(tag: Tag)
    ensures TagOf(Title(tag)) == Some(tag)
  {
    hide TagOf, Title;
    if IsFlag(tag) {
      FlagTitleTells(tag);
    } else if TextArity(tag) == 1 {
      TextTitleTells(tag);
    } else if TextArity(tag) == 2 {
      TextsTitleTells(tag);
    } else {
      OtherTitleTells(tag);
    }
  }
}
