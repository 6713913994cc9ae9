/** Filters as stored trees, and back. */
module Persist {
  import opened Objects
  import opened ByteOrder
  import opened LazyRefs
  import opened FilterTerms

  // ------------------------------------------------------------------ writing

  /** Entries are stored in the byte order of their names. */
  function SortedTree(ps: seq<Pair<Obj>>): Obj {
    Node(Keys(Sort(ps)), Values(Sort(ps)))
  }

  function Blobs(texts: seq<string>): (bs: seq<Obj>)
    ensures |bs| == |texts| && forall i :: 0 <= i < |bs| ==> bs[i] == Leaf(texts[i])
  {
    seq(|texts|, i requires 0 <= i < |texts| => Leaf(texts[i]))
  }

  function TextParams(texts: seq<string>): Obj {
    SortedTree(Indexed(Blobs(texts)))
  }

  function ListParams(kids: seq<Obj>): Obj {
    SortedTree(Indexed(kids))
  }

  function RuleTree(rule: Rule): Obj {
    SortedTree([Pair("p", Leaf(rule.pattern)), Pair("r", Leaf(rule.replacement))])
  }

  function RuleTrees(rules: seq<Rule>): (os: seq<Obj>)
    ensures |os| == |rules| && forall i :: 0 <= i < |os| ==> os[i] == RuleTree(rules[i])
  {
    seq(|rules|, i requires 0 <= i < |rules| => RuleTree(rules[i]))
  }

  /** A filter together with the key it is stored under. */
  function KeyedTree(key: string, kid: Obj): Obj {
    SortedTree([Pair("o", Leaf(key)), Pair("f", kid)])
  }

  function KeyedTrees(keys: seq<string>, kids: seq<Obj>): (os: seq<Obj>)
    requires |keys| == |kids|
    ensures |os| == |kids| && forall i :: 0 <= i < |os| ==> os[i] == KeyedTree(keys[i], kids[i])
  {
    seq(|kids|, i requires 0 <= i < |kids| => KeyedTree(keys[i], kids[i]))
  }

  function ArmKey(arm: Arm): string {
    match arm.rule
    case AncestorStrict => "<" + Print(arm.ref)
    case AncestorInclusive => "<=" + Print(arm.ref)
    case Equal => "==" + Print(arm.ref)
    case Default => "_"
  }

  function ArmKeys(arms: seq<Arm>): (ks: seq<string>)
    ensures |ks| == |arms| && forall i :: 0 <= i < |ks| ==> ks[i] == ArmKey(arms[i])
  {
    seq(|arms|, i requires 0 <= i < |arms| => ArmKey(arms[i]))
  }

  function RefKeys(refs: seq<LazyRef>): (ks: seq<string>)
    ensures |ks| == |refs| && forall i :: 0 <= i < |ks| ==> ks[i] == Print(refs[i])
  {
    seq(|refs|, i requires 0 <= i < |refs| => Print(refs[i]))
  }

  function ModeText(mode: Option<LinkMode>): string {
    if mode.None? then ""
    else
      match mode.value
      case Embedded => "embedded"
      case Snapshot => "snapshot"
      case Pointer => "pointer"
  }

  function AttributeEntries(m: seq<Pair<string>>): (ps: seq<Pair<Obj>>)
    ensures |ps| == |m| && forall i :: 0 <= i < |ps| ==> ps[i] == Pair(m[i].key, Leaf(m[i].value))
  {
    seq(|m|, i requires 0 <= i < |m| => Pair(m[i].key, Leaf(m[i].value)))
  }

  /** How an inserted object is referred to: as itself in a stored tree, by the digits of its id
      where only an id is wanted. */
  datatype Form = ForStore | ForHash(digits: Obj -> string)

  function InsertParams(path: string, content: Insertion, form: Form): Obj {
    if content.Inline? then TextParams([path, "inline", content.text])
    else if form.ForStore? then SortedTree([Pair("0", Leaf(path)), Pair("o", content.obj)])
    else TextParams([path, "oid", form.digits(content.obj)])
  }

  /** What is stored under the name of an operation; `kids` is what its filters are stored as. */
  function Params(tag: Tag, data: Data, kids: seq<Obj>, form: Form): Obj
    requires Fits(tag, data, |kids|)
  {
    if IsFlag(tag) then Leaf(if tag == Prune then "trivial-merge" else "")
    else if TextArity(tag) > 0 then TextParams(data.params)
    else
      match tag
      case Link => TextParams([ModeText(data.mode)])
      case Insert => InsertParams(data.path, data.content, form)
      case RegexReplace => ListParams(RuleTrees(data.rules))
      case Downstack => TextParams([Print(data.ref)])
      case Unapply => ListParams(KeyedTrees([Print(data.ref)], kids))
      case Rev => ListParams(KeyedTrees(ArmKeys(data.arms), kids))
      case Squash => if data == Nothing then Leaf("") else ListParams(KeyedTrees(RefKeys(data.refs), kids))
      case Starlark => SortedTree([Pair("0", TextParams(data.params)), Pair("1", ListParams(kids))])
      case TreeId => SortedTree([Pair("0", TextParams(data.params)), Pair("1", ListParams(kids))])
      case Meta => SortedTree(AttributeEntries(data.attributes) + [Pair("0", kids[0])])
      case _ => ListParams(kids)
  }

  function Build(tag: Tag, data: Data, kids: seq<Obj>, form: Form): Obj
    requires Fits(tag, data, |kids|)
  {
    Node([Title(tag)], [Params(tag, data, kids, form)])
  }

  predicate FitsThroughout(t: Term) {
    t.Op? ==> Fits(t.tag, t.data, |t.kids|) && forall i :: 0 <= i < |t.kids| ==> FitsThroughout(t.kids[i])
  }

  /** The object a filter is stored as, or the id it has. */
  function Encode(t: Term, form: Form): Obj
    requires FitsThroughout(t)
    decreases t, 0
  {
    if t.Sentinel? then t.id else Build(t.tag, t.data, EncodeAll(t.kids, |t.kids|, form), form)
  }

  /** The first `n` filters, encoded. */
  function EncodeAll(ts: seq<Term>, n: nat, form: Form): (os: seq<Obj>)
    requires n <= |ts| && forall i :: 0 <= i < |ts| ==> FitsThroughout(ts[i])
    ensures |os| == n && forall i :: 0 <= i < n ==> os[i] == Encode(ts[i], form)
    decreases ts, n
  {
    if n == 0 then [] else EncodeAll(ts, n - 1, form) + [Encode(ts[n - 1], form)]
  }

  // ------------------------------------------------------------------ reading

  function Size(o: Obj): nat {
    if o.Leaf? then 1 else 1 + Sizes(o.kids)
  }

  function Sizes(os: seq<Obj>): (n: nat)
    ensures forall o :: o in os ==> Size(o) <= n
  {
    if os == [] then 0
    else
      assert forall o :: o in os ==> o == os[0] || o in os[1..];
      Size(os[0]) + Sizes(os[1..])
  }

  function Count(o: Obj): nat
    requires o.Node?
  {
    if |o.names| < |o.kids| then |o.names| else |o.kids|
  }

  function Entries(o: Obj): (ps: seq<Pair<Obj>>)
    requires o.Node?
    ensures forall i :: 0 <= i < |ps| ==> Size(ps[i].value) < Size(o)
  {
    seq(Count(o), i requires 0 <= i < Count(o) => Pair(o.names[i], o.kids[i]))
  }

  /** The entry called `name`, if the object is a tree that has one. */
  function At(o: Obj, name: string): (r: Option<Obj>)
    ensures r.Some? ==> Size(r.value) < Size(o)
  {
    if o.Leaf? then None
    else
      FoundIsMember(Entries(o), name);
      Find(Entries(o), name)
  }

  function TextAt(o: Obj, name: string): Option<string> {
    var r := At(o, name);
    if r.Some? && r.value.Leaf? then Some(r.value.data) else None
  }

  /** The texts called `0`, `1` and so on, `n` of them. */
  function TextsAt(o: Obj, n: nat): Option<seq<string>> {
    if n == 0 then Some([])
    else
      var rest, last := TextsAt(o, n - 1), TextAt(o, Digits(n - 1));
      if rest.None? || last.None? then None else Some(rest.value + [last.value])
  }

  /** The entries called `0`, `1` and so on, `n` of them. */
  function Named(o: Obj, n: nat): (r: Option<seq<Obj>>)
    ensures r.Some? ==> |r.value| == n && forall x :: x in r.value ==> Size(x) < Size(o)
  {
    if n == 0 then Some([])
    else
      var rest, last := Named(o, n - 1), At(o, Digits(n - 1));
      if rest.None? || last.None? then None else Some(rest.value + [last.value])
  }

  /** The entries in the order they are stored in. */
  function InPlace(o: Obj): (os: seq<Obj>)
    requires o.Node?
    ensures forall x :: x in os ==> Size(x) < Size(o)
  {
    Values(Entries(o))
  }

  function ParseMode(s: string): Result<Option<LinkMode>> {
    if s == "" then Ok(None)
    else if s == "embedded" then Ok(Some(Embedded))
    else if s == "snapshot" then Ok(Some(Snapshot))
    else if s == "pointer" then Ok(Some(Pointer))
    else Err
  }

  function ReadInsert(o: Obj): Result<Data> {
    var path, obj, kind, text := TextAt(o, "0"), At(o, "o"), TextAt(o, "1"), TextAt(o, "2");
    if path.None? then Err
    else if obj.Some? then Ok(Content(path.value, ById(obj.value)))
    else if kind.None? || text.None? || kind.value != "inline" then Err
    else Ok(Content(path.value, Inline(text.value)))
  }

  function ReadRules(os: seq<Obj>): Result<seq<Rule>> {
    if os == [] then Ok([])
    else
      var rest, p, r := ReadRules(Init(os)), TextAt(Last(os), "p"), TextAt(Last(os), "r");
      if rest.Err? || p.None? || r.None? then Err else Ok(rest.value + [Rule(p.value, r.value)])
  }

  function ParseArm(key: string): Result<Arm> {
    if key == "_" then Ok(Arm(Default, Resolved(ZERO_ID)))
    else if |key| >= 2 && key[..2] == "<=" then ArmWith(AncestorInclusive, Parse(key[2..]))
    else if |key| >= 1 && key[0] == '<' then ArmWith(AncestorStrict, Parse(key[1..]))
    else if |key| >= 2 && key[..2] == "==" then ArmWith(Equal, Parse(key[2..]))
    else Err
  }

  function ArmWith(m: RevMatch, ref: Result<LazyRef>): Result<Arm> {
    if ref.Err? then Err else Ok(Arm(m, ref.value))
  }

  function ParseArms(keys: seq<string>): (r: Result<seq<Arm>>)
    ensures r.Ok? ==> |r.value| == |keys|
  {
    if keys == [] then Ok([])
    else
      var rest, last := ParseArms(Init(keys)), ParseArm(Last(keys));
      if rest.Err? || last.Err? then Err else Ok(rest.value + [last.value])
  }

  function ParseRefs(keys: seq<string>): (r: Result<seq<LazyRef>>)
    ensures r.Ok? ==> |r.value| == |keys|
  {
    if keys == [] then Ok([])
    else
      var rest, last := ParseRefs(Init(keys)), Parse(Last(keys));
      if rest.Err? || last.Err? then Err else Ok(rest.value + [last.value])
  }

  function SlotRefs<T>(ps: seq<Pair<(LazyRef, T)>>): seq<LazyRef> {
    seq(|ps|, i requires 0 <= i < |ps| => ps[i].value.0)
  }

  function SlotValues<T>(ps: seq<Pair<(LazyRef, T)>>): seq<T> {
    seq(|ps|, i requires 0 <= i < |ps| => ps[i].value.1)
  }

  /** The map that comes of entering filters under references one after the other. */
  function SquashOf(refs: seq<LazyRef>, kids: seq<Term>): Term
    requires |refs| == |kids|
  {
    var slots := Collect(Slots(refs, kids));
    Op(Squash, Refs(SlotRefs(slots)), SlotValues(slots))
  }

  /** Attributes are the blobs of the tree that are not called `0`. */
  function ReadAttributes(ps: seq<Pair<Obj>>): Result<seq<Pair<string>>> {
    if ps == [] then Ok([])
    else
      var rest, last := ReadAttributes(Init(ps)), Last(ps);
      if rest.Err? then Err
      else if last.key == "0" then rest
      else if last.value.Node? then Err
      else Ok(rest.value + [Pair(last.key, last.value.data)])
  }

  function Decode(o: Obj): Result<Term>
    decreases Size(o), 1, 0
  {
    if o.Leaf? || Entries(o) == [] then Err
    else
      var first := Entries(o)[0];
      var tag := TagOf(first.key);
      if tag.None? then Err else DecodeOp(tag.value, first.value)
  }

  function DecodeAll(os: seq<Obj>, bound: nat): (r: Result<seq<Term>>)
    requires forall o :: o in os ==> Size(o) < bound
    ensures r.Ok? ==> |r.value| == |os|
    decreases bound, 0, |os|
  {
    if os == [] then Ok([])
    else
      assert Last(os) in os;
      var rest, last := DecodeAll(Init(os), bound), Decode(Last(os));
      if rest.Err? || last.Err? then Err else Ok(rest.value + [last.value])
  }

  datatype Keyed = Keyed(keys: seq<string>, kids: seq<Term>)

  function DecodeKeyed(os: seq<Obj>, bound: nat): (r: Result<Keyed>)
    requires forall o :: o in os ==> Size(o) < bound
    ensures r.Ok? ==> |r.value.keys| == |os| && |r.value.kids| == |os|
    decreases bound, 0, |os|
  {
    if os == [] then Ok(Keyed([], []))
    else
      assert Last(os) in os;
      var rest, key, kid := DecodeKeyed(Init(os), bound), TextAt(Last(os), "o"), At(Last(os), "f");
      if rest.Err? || key.None? || kid.None? then Err
      else
        var last := Decode(kid.value);
        if last.Err? then Err else Ok(Keyed(rest.value.keys + [key.value], rest.value.kids + [last.value]))
  }

  /** How many filters a list operation takes. */
  predicate FitsList(tag: Tag, n: nat) {
    match tag
    case Compose => true
    case Chain => n > 0
    case Subtract => n == 2
    case _ => n == 1
  }

  function DecodeOp(tag: Tag, v: Obj): Result<Term>
    decreases Size(v), 2, 0
  {
    if IsFlag(tag) then
      if v.Node? || (tag == Prune && v.data != "trivial-merge") then Err else Ok(Op(tag, Nothing, []))
    else if v.Leaf? then
      if tag == Squash then Ok(Op(Squash, Nothing, [])) else Err
    else if TextArity(tag) > 0 then
      var texts := TextsAt(v, TextArity(tag));
      if texts.None? then Err else Ok(Op(tag, Strings(texts.value), []))
    else if tag in {Link, Insert, RegexReplace, Downstack} then
      var data := DecodeData(tag, v);
      if data.Err? then Err else Ok(Op(tag, data.value, []))
    else if tag in {Unapply, Rev, Squash} then DecodeKeyedOp(tag, v)
    else if tag in {Starlark, TreeId} then DecodeScript(tag, v)
    else if tag == Meta then
      var kid, attributes := At(v, "0"), ReadAttributes(Entries(v));
      if kid.None? || attributes.Err? then Err
      else
        var filter := Decode(kid.value);
        if filter.Err? then Err else Ok(Op(Meta, Attributes(Collect(attributes.value)), [filter.value]))
    else DecodeList(tag, v)
  }

  /** Composed filters are read in place, all others by name. */
  function DecodeList(tag: Tag, v: Obj): Result<Term>
    requires v.Node?
    decreases Size(v), 1, 0
  {
    var os := if tag == Compose then Some(InPlace(v)) else Named(v, |Entries(v)|);
    if os.None? || !FitsList(tag, |os.value|) then Err
    else
      var kids := DecodeAll(os.value, Size(v));
      if kids.Err? then Err else Ok(Op(tag, Nothing, kids.value))
  }

  function DecodeData(tag: Tag, v: Obj): Result<Data>
    requires v.Node? && tag in {Link, Insert, RegexReplace, Downstack}
  {
    var text := TextAt(v, "0");
    if tag == Insert then ReadInsert(v)
    else if tag == RegexReplace then
      var rules := ReadRules(InPlace(v));
      if rules.Err? then Err else Ok(Rules(rules.value))
    else if text.None? then Err
    else if tag == Link then
      var mode := ParseMode(text.value);
      if mode.Err? then Err else Ok(Mode(mode.value))
    else
      var ref := Parse(text.value);
      if ref.Err? then Err else Ok(Ref(ref.value))
  }

  /** Arms are read by name, squash entries in place, and of an unapply entry there is one. */
  function KeyedObjects(tag: Tag, v: Obj): (r: Option<seq<Obj>>)
    requires v.Node? && tag in {Unapply, Rev, Squash}
    ensures r.Some? ==> (tag == Unapply ==> |r.value| == 1) && forall o :: o in r.value ==> Size(o) < Size(v)
  {
    if tag == Rev then Named(v, |Entries(v)|)
    else if tag == Squash then Some(InPlace(v))
    else if InPlace(v) == [] then None
    else Some([InPlace(v)[0]])
  }

  function DecodeKeyedOp(tag: Tag, v: Obj): Result<Term>
    requires v.Node? && tag in {Unapply, Rev, Squash}
    decreases Size(v), 1, 0
  {
    var os := KeyedObjects(tag, v);
    if os.None? then Err
    else
      var read := DecodeKeyed(os.value, Size(v));
      if read.Err? then Err else KeyedOp(tag, read.value.keys, read.value.kids)
  }

  function KeyedOp(tag: Tag, keys: seq<string>, kids: seq<Term>): Result<Term>
    requires tag in {Unapply, Rev, Squash} && |keys| == |kids| && (tag == Unapply ==> |keys| == 1)
  {
    if tag == Rev then
      var arms := ParseArms(keys);
      if arms.Err? then Err else Ok(Op(Rev, Arms(arms.value), kids))
    else
      var refs := ParseRefs(keys);
      if refs.Err? then Err
      else if tag == Squash then Ok(SquashOf(refs.value, kids))
      else Ok(Op(Unapply, Ref(refs.value[0]), kids))
  }

  /** The filter is read from the list it is stored in, not from its entry. */
  function DecodeScript(tag: Tag, v: Obj): Result<Term>
    requires v.Node? && tag in {Starlark, TreeId}
    decreases Size(v), 1, 0
  {
    var path, list := At(v, "0"), At(v, "1");
    if path.None? || list.None? || TextAt(path.value, "0").None? then Err
    else
      var filter := Decode(list.value);
      if filter.Err? then Err else Ok(Op(tag, Strings([TextAt(path.value, "0").value]), [filter.value]))
  }
}
