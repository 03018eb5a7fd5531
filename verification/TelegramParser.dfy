/** The streaming parser of public Telegram previews.

    The HTML reader feeds it tags and text; it keeps a few counters and buffers.  The theorem
    is that on well-nested input these always add up to a plain recursive reading of the
    element tree.  Buffers that the code keeps as lists of pieces are kept joined here. */
module TelegramParser {
  import opened Common

  const MAX_MESSAGE_TEXT_CHARS := 12000
  const MAX_MESSAGE_URL_CHARS := 2048
  const MAX_LINKS_PER_MESSAGE := 50
  const MAX_FORMATTED_CODES_PER_MESSAGE := 50
  const MAX_FORMATTED_CODE_CHARS := 256

  datatype Header = Header(channel: string, messageId: string)

  /** A tag's attributes as far as the parser asks: the header if the element announces a
      message of the expected channel, whether it is a text container, its link, its time. */
  datatype Attrs = Attrs(header: Option<Header>, textContainer: bool, href: string, datetime: string)

  datatype Tag = DivTag | CodeTag | BrTag | ATag | TimeTag | OtherTag

  datatype Event = StartTag(tag: Tag, attrs: Attrs) | EndTag(tag: Tag) | Data(text: string)

  /** `normalize` is the white-space clean-up of texts, `strip` the one of codes. */
  datatype Library = Library(normalize: string -> string, strip: string -> string)

  datatype Draft = Draft(
    header: Header,
    text: string,
    links: seq<string>,
    codes: seq<string>,
    publishedAt: Option<string>)

  datatype Post = Post(
    header: Header,
    publishedAt: Option<string>,
    text: string,
    links: seq<string>,
    codes: seq<string>)

  datatype State = State(
    messages: seq<Post>,
    current: Option<Draft>,
    divDepth: int,
    textDepth: Option<int>,
    inCode: bool,
    codeBuffer: string)

  const Initial := State([], None, 0, None, false, "")

  // ---- Bounded buffers ----

  function Cut<T>(n: nat, s: seq<T>): seq<T> {
    if |s| <= n then s else s[..n]
  }

  lemma CutTwice<T>(n: nat, a: seq<T>, b: seq<T>)
    ensures Cut(n, Cut(n, a) + b) == Cut(n, a + b)
  {
  }

  lemma CutJoins<T>(n: nat, base: seq<T>, a: seq<T>, b: seq<T>)
    ensures Cut(n, Cut(n, base + a) + b) == Cut(n, base + (a + b))
  {
    CutTwice(n, base + a, b);
    assert base + a + b == base + (a + b);
  }

  /** Cutting the new piece to the room that is left cuts the whole. */
  lemma CutRoom<T>(n: nat, a: seq<T>, b: seq<T>)
    requires |a| <= n
    ensures a + Cut(n - |a|, b) == Cut(n, a + b)
  {
  }

  function Stripped(lib: Library, s: seq<string>): seq<string> {
    seq(|s|, i requires 0 <= i < |s| => lib.strip(s[i]))
  }

  // ---- One event ----

  function AppendText(d: Draft, value: string): Draft {
    d.(text := Cut(MAX_MESSAGE_TEXT_CHARS, d.text + value))
  }

  function AddCode(lib: Library, codes: seq<string>, raw: string): seq<string> {
    var code := lib.strip(raw);
    if code != "" && |codes| < MAX_FORMATTED_CODES_PER_MESSAGE then codes + [code] else codes
  }

  function Finish(lib: Library, s: State, d: Draft): State {
    var text := lib.normalize(d.text);
    var post := Post(d.header, d.publishedAt, text, Distinct(d.links), Distinct(Stripped(lib, d.codes)));
    s.(messages := if text != "" then s.messages + [post] else s.messages,
       current := None, divDepth := 0, textDepth := None)
  }

  function Start(s: State, tag: Tag, attrs: Attrs): State {
    match s.current
    case None =>
      if tag == DivTag && attrs.header.Some?
      then s.(current := Some(Draft(attrs.header.value, "", [], [], None)), divDepth := 1)
      else s
    case Some(d) =>
      match tag
      case DivTag =>
        s.(divDepth := s.divDepth + 1, textDepth := if attrs.textContainer then Some(s.divDepth + 1) else s.textDepth)
      case BrTag => if s.textDepth.Some? then s.(current := Some(AppendText(d, "\n"))) else s
      case CodeTag => if s.textDepth.Some? then s.(inCode := true, codeBuffer := "") else s
      case ATag =>
        if attrs.href != "" && |d.links| < MAX_LINKS_PER_MESSAGE
        then s.(current := Some(d.(links := d.links + [Cut(MAX_MESSAGE_URL_CHARS, attrs.href)]))) else s
      case TimeTag => if attrs.datetime != "" then s.(current := Some(d.(publishedAt := Some(attrs.datetime)))) else s
      case OtherTag => s
  }

  function End(lib: Library, s: State, tag: Tag): State {
    match s.current
    case None => s
    case Some(d) =>
      if tag == CodeTag && s.inCode then
        s.(current := Some(d.(codes := AddCode(lib, d.codes, s.codeBuffer))), inCode := false, codeBuffer := "")
      else if tag == DivTag then
        var textDepth := if s.textDepth == Some(s.divDepth) then None else s.textDepth;
        var t := s.(textDepth := textDepth, divDepth := s.divDepth - 1);
        if t.divDepth == 0 then Finish(lib, t, d) else t
      else s
  }

  function Text(s: State, data: string): State {
    if s.current.None? || s.textDepth.None? then s
    else s.(current := Some(AppendText(s.current.value, data)),
            codeBuffer := if s.inCode then Cut(MAX_FORMATTED_CODE_CHARS, s.codeBuffer + data) else s.codeBuffer)
  }

  function Step(lib: Library, s: State, e: Event): State {
    match e
    case StartTag(tag, attrs) => Start(s, tag, attrs)
    case EndTag(tag) => End(lib, s, tag)
    case Data(data) => Text(s, data)
  }

  function Run(lib: Library, s: State, events: seq<Event>): State
    decreases |events|
  {
    if events == [] then s else Run(lib, Step(lib, s, events[0]), events[1..])
  }

  /** The parser as an object.  Its cuts spell out the remaining room, as the code does. */
  class PreviewParser {
    const lib: Library
    var messages: seq<Post>
    var current: Option<Draft>
    var divDepth: int
    var textDepth: Option<int>
    var inCode: bool
    var codeBuffer: string

    function Contents(): State
      reads this
    {
      State(messages, current, divDepth, textDepth, inCode, codeBuffer)
    }

    /** Buffers never outgrow their bounds. */
    ghost predicate Bounded()
      reads this
    {
      |codeBuffer| <= MAX_FORMATTED_CODE_CHARS && (current.Some? ==> |current.value.text| <= MAX_MESSAGE_TEXT_CHARS)
    }

    constructor (lib: Library)
      ensures this.lib == lib && Contents() == Initial && Bounded()
    {
      this.lib := lib;
      messages, current, divDepth, textDepth, inCode, codeBuffer := [], None, 0, None, false, "";
    }

    method AppendToText(value: string)
      requires current.Some? && Bounded()
      modifies this`current
      ensures current == Some(AppendText(old(current).value, value)) && Bounded()
    {
      var d := current.value;
      var remaining := MAX_MESSAGE_TEXT_CHARS - |d.text|;
      CutRoom(MAX_MESSAGE_TEXT_CHARS, d.text, value);
      if remaining <= 0 {
        assert d.text + Cut(0, value) == d.text;
        return;
      }
      current := Some(d.(text := d.text + Cut(remaining, value)));
    }

    method HandleStartTag(tag: Tag, attrs: Attrs)
      requires Bounded()
      modifies this
      ensures Contents() == Start(old(Contents()), tag, attrs) && Bounded()
    {
      if current.None? {
        if tag == DivTag && attrs.header.Some? {
          current := Some(Draft(attrs.header.value, "", [], [], None));
          divDepth := 1;
        }
        return;
      }
      if tag == DivTag {
        divDepth := divDepth + 1;
        if attrs.textContainer {
          textDepth := Some(divDepth);
        }
      }
      if textDepth.Some? && tag == BrTag {
        AppendToText("\n");
      }
      if textDepth.Some? && tag == CodeTag {
        inCode, codeBuffer := true, "";
      }
      if tag == ATag && attrs.href != "" {
        var d := current.value;
        if |d.links| < MAX_LINKS_PER_MESSAGE {
          current := Some(d.(links := d.links + [Cut(MAX_MESSAGE_URL_CHARS, attrs.href)]));
        }
      }
      if tag == TimeTag && attrs.datetime != "" {
        current := Some(current.value.(publishedAt := Some(attrs.datetime)));
      }
    }

    method HandleEndTag(tag: Tag)
      requires Bounded()
      modifies this
      ensures Contents() == End(lib, old(Contents()), tag) && Bounded()
    {
      if current.None? {
        return;
      }
      if tag == CodeTag && inCode {
        var code := lib.strip(codeBuffer);
        if code != "" && |current.value.codes| < MAX_FORMATTED_CODES_PER_MESSAGE {
          current := Some(current.value.(codes := current.value.codes + [code]));
        }
        inCode, codeBuffer := false, "";
      }
      if tag != DivTag {
        return;
      }
      if textDepth == Some(divDepth) {
        textDepth := None;
      }
      divDepth := divDepth - 1;
      if divDepth == 0 {
        FinishMessage();
      }
    }

    method HandleData(data: string)
      requires Bounded()
      modifies this
      ensures Contents() == Text(old(Contents()), data) && Bounded()
    {
      if current.None? || textDepth.None? {
        return;
      }
      AppendToText(data);
      if inCode {
        CutRoom(MAX_FORMATTED_CODE_CHARS, codeBuffer, data);
        if |codeBuffer| < MAX_FORMATTED_CODE_CHARS {
          codeBuffer := codeBuffer + Cut(MAX_FORMATTED_CODE_CHARS - |codeBuffer|, data);
        }
      }
    }

    method FinishMessage()
      requires current.Some? && Bounded()
      modifies this
      ensures Contents() == Finish(lib, old(Contents()), old(current).value) && Bounded()
    {
      var d := current.value;
      var text := lib.normalize(d.text);
      if text != "" {
        var links, codes := Distinct(d.links), Distinct(Stripped(lib, d.codes));
        messages := messages + [Post(d.header, d.publishedAt, text, links, codes)];
      }
      current, divDepth, textDepth := None, 0, None;
    }
  }

  // ---- The element tree ----

  /** A sequence of sibling nodes.  Only div and code elements are elements here; every other
      tag is a leaf, whether or not the page closes it properly. */
  datatype Forest =
    | Nil
    | Leaf(event: Event, rest: Forest)
    | Div(attrs: Attrs, inside: Forest, rest: Forest)
    | Code(attrs: Attrs, inside: Forest, rest: Forest)

  predicate IsLeaf(e: Event) {
    e.Data? || (e.tag != DivTag && e.tag != CodeTag)
  }

  predicate LeavesOk(f: Forest) {
    match f
    case Nil => true
    case Leaf(e, rest) => IsLeaf(e) && LeavesOk(rest)
    case Div(_, inside, rest) => LeavesOk(inside) && LeavesOk(rest)
    case Code(_, inside, rest) => LeavesOk(inside) && LeavesOk(rest)
  }

  function Events(f: Forest): seq<Event> {
    match f
    case Nil => []
    case Leaf(e, rest) => [e] + Events(rest)
    case Div(attrs, inside, rest) => [StartTag(DivTag, attrs)] + Events(inside) + [EndTag(DivTag)] + Events(rest)
    case Code(attrs, inside, rest) => [StartTag(CodeTag, attrs)] + Events(inside) + [EndTag(CodeTag)] + Events(rest)
  }

  predicate HasContainer(f: Forest) {
    match f
    case Nil => false
    case Leaf(_, rest) => HasContainer(rest)
    case Div(attrs, inside, rest) => attrs.textContainer || HasContainer(inside) || HasContainer(rest)
    case Code(_, inside, rest) => HasContainer(inside) || HasContainer(rest)
  }

  predicate HasCode(f: Forest) {
    match f
    case Nil => false
    case Leaf(_, rest) => HasCode(rest)
    case Div(_, inside, rest) => HasCode(inside) || HasCode(rest)
    case Code(_, _, _) => true
  }

  function DataIn(e: Event): string {
    if e.Data? then e.text else ""
  }

  /** What a leaf adds to a text: its characters, and a newline for a line break. */
  function TextIn(e: Event): string {
    if e.Data? then e.text else if e.StartTag? && e.tag == BrTag then "\n" else ""
  }

  /** The addresses of links, cut at 2048 characters. */
  function LinksOf(f: Forest): seq<string> {
    match f
    case Nil => []
    case Leaf(e, rest) =>
      (if e.StartTag? && e.tag == ATag && e.attrs.href != "" then [Cut(2048, e.attrs.href)] else [])
      + LinksOf(rest)
    case Div(_, inside, rest) => LinksOf(inside) + LinksOf(rest)
    case Code(_, inside, rest) => LinksOf(inside) + LinksOf(rest)
  }

  /** The last time stamp, or the one known before. */
  function TimeOf(f: Forest, known: Option<string>): Option<string> {
    match f
    case Nil => known
    case Leaf(e, rest) =>
      TimeOf(rest, if e.StartTag? && e.tag == TimeTag && e.attrs.datetime != "" then Some(e.attrs.datetime) else known)
    case Div(_, inside, rest) => TimeOf(rest, TimeOf(inside, known))
    case Code(_, inside, rest) => TimeOf(rest, TimeOf(inside, known))
  }

  // ---- The recursive reading ----

  /** The text a message keeps.  A text container opens it, and closing one closes it for all that
      follows, also inside a container further out; other elements pass on whether it is open. */
  function Kept(f: Forest, open: bool): string {
    match f
    case Nil => ""
    case Leaf(e, rest) => (if open then TextIn(e) else "") + Kept(rest, open)
    case Div(attrs, inside, rest) =>
      Kept(inside, open || attrs.textContainer) + Kept(rest, open && !attrs.textContainer && !HasContainer(inside))
    case Code(_, inside, rest) => Kept(inside, open) + Kept(rest, open && !HasContainer(inside))
  }

  /** The same without line breaks, as code elements collect it. */
  function KeptChars(f: Forest, open: bool): string {
    match f
    case Nil => ""
    case Leaf(e, rest) => (if open then DataIn(e) else "") + KeptChars(rest, open)
    case Div(attrs, inside, rest) =>
      KeptChars(inside, open || attrs.textContainer)
      + KeptChars(rest, open && !attrs.textContainer && !HasContainer(inside))
    case Code(_, inside, rest) => KeptChars(inside, open) + KeptChars(rest, open && !HasContainer(inside))
  }

  /** A code element under way with what it has collected, after some more characters. */
  function Collect(pending: Option<string>, more: string): Option<string> {
    if pending.None? then None else Some(pending.value + more)
  }

  /** A code element under way after a forest: the first code element closed in it ends it. */
  function Pending(f: Forest, open: bool, pending: Option<string>): Option<string> {
    if HasCode(f) then None else Collect(pending, KeptChars(f, open))
  }

  /** A code element that starts while text is open collects afresh; otherwise nothing starts. */
  function Begun(open: bool, pending: Option<string>): Option<string> {
    if open then Some("") else pending
  }

  /** The codes a message keeps, not yet cut: one for each code element that has no other inside and
      closes while one is under way. */
  function KeptCodes(f: Forest, open: bool, pending: Option<string>): seq<string> {
    match f
    case Nil => []
    case Leaf(e, rest) => KeptCodes(rest, open, Collect(pending, if open then DataIn(e) else ""))
    case Div(attrs, inside, rest) =>
      var inner := open || attrs.textContainer;
      KeptCodes(inside, inner, pending)
      + KeptCodes(rest, open && !attrs.textContainer && !HasContainer(inside), Pending(inside, inner, pending))
    case Code(_, inside, rest) =>
      KeptCode(inside, open, pending, KeptCodes(inside, open, Begun(open, pending)))
      + KeptCodes(rest, open && !HasContainer(inside), None)
  }

  function KeptCode(inside: Forest, open: bool, pending: Option<string>, deeper: seq<string>): seq<string> {
    if HasCode(inside) then deeper
    else if Begun(open, pending).Some? then [Begun(open, pending).value + KeptChars(inside, open)]
    else []
  }

  function AddCodes(lib: Library, codes: seq<string>, raws: seq<string>): seq<string>
    decreases raws
  {
    if raws == [] then codes else AddCodes(lib, AddCode(lib, codes, raws[0]), raws[1..])
  }

  lemma {:induction false} AddCodesSplits(lib: Library, codes: seq<string>, a: seq<string>, b: seq<string>)
    ensures AddCodes(lib, codes, a + b) == AddCodes(lib, AddCodes(lib, codes, a), b)
    decreases a
  {
    if a == [] {
      assert a + b == b;
    } else {
      assert (a + b)[1..] == a[1..] + b;
      AddCodesSplits(lib, AddCode(lib, codes, a[0]), a[1..], b);
    }
  }

  /** The codes that survive stripping, in order. */
  function NonEmpty(s: seq<string>): seq<string> {
    if s == [] then [] else (if s[0] != "" then [s[0]] else []) + NonEmpty(s[1..])
  }

  lemma {:induction false} AddCodesIsCut(lib: Library, codes: seq<string>, raws: seq<string>)
    requires |codes| <= MAX_FORMATTED_CODES_PER_MESSAGE
    ensures AddCodes(lib, codes, raws) == Cut(MAX_FORMATTED_CODES_PER_MESSAGE, codes + NonEmpty(Stripped(lib, raws)))
    decreases raws
  {
    if raws == [] {
      assert codes + NonEmpty(Stripped(lib, raws)) == codes;
    } else {
      var code := lib.strip(raws[0]);
      assert Stripped(lib, raws)[1..] == Stripped(lib, raws[1..]);
      AddCodesIsCut(lib, AddCode(lib, codes, raws[0]), raws[1..]);
      var more := NonEmpty(Stripped(lib, raws[1..]));
      if code != "" {
        assert codes + ([code] + more) == (codes + [code]) + more;
      } else {
        assert [] + more == more;
      }
    }
  }

  /** Codes are cut at 256 characters before they are stripped. */
  function CutAll(codes: seq<string>): seq<string> {
    seq(|codes|, i requires 0 <= i < |codes| => Cut(256, codes[i]))
  }

  /** The message with this header, text and codes, if it has a text; links and time are those below it. */
  function PostFrom(lib: Library, header: Header, inside: Forest, text: string, codes: seq<string>): seq<Post> {
    var normal := lib.normalize(Cut(MAX_MESSAGE_TEXT_CHARS, text));
    var links := Cut(MAX_LINKS_PER_MESSAGE, LinksOf(inside));
    var kept := Cut(MAX_FORMATTED_CODES_PER_MESSAGE, NonEmpty(Stripped(lib, CutAll(codes))));
    if normal == "" then []
    else [Post(header, TimeOf(inside, None), normal, Distinct(links), Distinct(Stripped(lib, kept)))]
  }

  function PostRead(lib: Library, header: Header, inside: Forest): seq<Post> {
    PostFrom(lib, header, inside, Kept(inside, false), KeptCodes(inside, false, None))
  }

  /** The messages of a page: outermost message elements only, in document order. */
  function PostsRead(lib: Library, f: Forest): seq<Post> {
    match f
    case Nil => []
    case Leaf(_, rest) => PostsRead(lib, rest)
    case Div(attrs, inside, rest) =>
      (if attrs.header.Some? then PostRead(lib, attrs.header.value, inside) else PostsRead(lib, inside))
      + PostsRead(lib, rest)
    case Code(_, inside, rest) => PostsRead(lib, inside) + PostsRead(lib, rest)
  }

  // ---- Cutting early and cutting late ----

  function Bound(pending: Option<string>): Option<string> {
    if pending.None? then None else Some(Cut(MAX_FORMATTED_CODE_CHARS, pending.value))
  }

  lemma CutAllSplits(a: seq<string>, b: seq<string>)
    ensures CutAll(a + b) == CutAll(a) + CutAll(b)
  {
  }

  lemma CollectBound(pending: Option<string>, more: string)
    ensures Bound(Collect(Bound(pending), more)) == Bound(Collect(pending, more))
  {
    if pending.Some? {
      CutTwice(MAX_FORMATTED_CODE_CHARS, pending.value, more);
    }
  }

  ghost predicate SameCodes(f: Forest, open: bool, a: Option<string>, b: Option<string>) {
    CutAll(KeptCodes(f, open, a)) == CutAll(KeptCodes(f, open, b))
  }

  /** Codes come out the same if a code element under way was cut before. */
  lemma {:induction false} BoundKeepsCodes(f: Forest, open: bool, a: Option<string>, b: Option<string>)
    requires Bound(a) == Bound(b)
    ensures SameCodes(f, open, a, b)
    decreases f
  {
    match f
    case Nil =>
    case Leaf(e, rest) =>
      var more := if open then DataIn(e) else "";
      BoundCollects(a, b, more);
      BoundKeepsCodes(rest, open, Collect(a, more), Collect(b, more));
    case Div(attrs, inside, rest) =>
      var inner, after := open || attrs.textContainer, open && !attrs.textContainer && !HasContainer(inside);
      BoundCollects(a, b, KeptChars(inside, inner));
      BoundKeepsCodes(inside, inner, a, b);
      BoundKeepsCodes(rest, after, Pending(inside, inner, a), Pending(inside, inner, b));
      CutAllSplits(KeptCodes(inside, inner, a), KeptCodes(rest, after, Pending(inside, inner, a)));
      CutAllSplits(KeptCodes(inside, inner, b), KeptCodes(rest, after, Pending(inside, inner, b)));
    case Code(_, inside, rest) =>
      BoundKeepsCodes(inside, open, Begun(open, a), Begun(open, b));
      BoundKeepsCode(inside, open, a, b);
      var after := KeptCodes(rest, open && !HasContainer(inside), None);
      CutAllSplits(KeptCode(inside, open, a, KeptCodes(inside, open, Begun(open, a))), after);
      CutAllSplits(KeptCode(inside, open, b, KeptCodes(inside, open, Begun(open, b))), after);
  }

  lemma BoundCollects(a: Option<string>, b: Option<string>, more: string)
    requires Bound(a) == Bound(b)
    ensures Bound(Collect(a, more)) == Bound(Collect(b, more))
  {
    CollectBound(a, more);
    CollectBound(b, more);
  }

  lemma BoundKeepsCode(inside: Forest, open: bool, a: Option<string>, b: Option<string>)
    requires Bound(a) == Bound(b) && SameCodes(inside, open, Begun(open, a), Begun(open, b))
    ensures CutAll(KeptCode(inside, open, a, KeptCodes(inside, open, Begun(open, a))))
         == CutAll(KeptCode(inside, open, b, KeptCodes(inside, open, Begun(open, b))))
  {
    BoundCollects(a, b, KeptChars(inside, open));
  }

  // ---- The counters follow the recursion ----

  lemma {:induction false} RunSplits(lib: Library, s: State, a: seq<Event>, b: seq<Event>)
    ensures Run(lib, s, a + b) == Run(lib, Run(lib, s, a), b)
    decreases |a|
  {
    if a == [] {
      assert a + b == b;
    } else {
      assert (a + b)[1..] == a[1..] + b;
      RunSplits(lib, Step(lib, s, a[0]), a[1..], b);
    }
  }

  /** Inside a message: depth at least one, and no text container open deeper than that. */
  ghost predicate Inside(s: State) {
    && s.current.Some? && s.divDepth >= 1
    && (s.textDepth.Some? ==> 1 <= s.textDepth.value <= s.divDepth)
    && (!s.inCode ==> s.codeBuffer == "")
    && |s.current.value.text| <= MAX_MESSAGE_TEXT_CHARS && |s.current.value.links| <= MAX_LINKS_PER_MESSAGE
    && |s.codeBuffer| <= MAX_FORMATTED_CODE_CHARS
  }

  function IsOpen(s: State): bool {
    s.textDepth.Some?
  }

  function PendingIn(s: State): Option<string> {
    if s.inCode then Some(s.codeBuffer) else None
  }

  /** The state after a forest inside a message, told by the recursive reading. */
  function After(lib: Library, s: State, f: Forest): State
    requires s.current.Some?
  {
    Moved(s, DraftAfter(lib, s.current.value, f, IsOpen(s), PendingIn(s)), HasContainer(f),
          Bound(Pending(f, IsOpen(s), PendingIn(s))))
  }

  /** Another draft, the text perhaps closed, another code element under way. */
  function Moved(s: State, d: Draft, closes: bool, pending: Option<string>): State {
    s.(current := Some(d),
       textDepth := if closes then None else s.textDepth,
       inCode := pending.Some?,
       codeBuffer := if pending.Some? then pending.value else "")
  }

  lemma MovedTwice(s: State, d1: Draft, closes1: bool, p1: Option<string>, d2: Draft, closes2: bool, p2: Option<string>)
    ensures Moved(Moved(s, d1, closes1, p1), d2, closes2, p2) == Moved(s, d2, closes1 || closes2, p2)
    ensures PendingIn(Moved(s, d1, closes1, p1)) == p1 && IsOpen(Moved(s, d1, closes1, p1)) == (IsOpen(s) && !closes1)
  {
  }

  function DraftAfter(lib: Library, d: Draft, f: Forest, open: bool, pending: Option<string>): Draft {
    Draft(d.header,
          Cut(MAX_MESSAGE_TEXT_CHARS, d.text + Kept(f, open)),
          Cut(MAX_LINKS_PER_MESSAGE, d.links + LinksOf(f)),
          AddCodes(lib, d.codes, CutAll(KeptCodes(f, open, pending))),
          TimeOf(f, d.publishedAt))
  }

  lemma AfterInside(lib: Library, s: State, f: Forest)
    requires Inside(s)
    ensures Inside(After(lib, s, f))
  {
  }

  /** `c` reads as `a` followed by `b`. */
  ghost predicate Joins(a: Forest, b: Forest, c: Forest, open: bool, pending: Option<string>) {
    var after := open && !HasContainer(a);
    && HasContainer(c) == (HasContainer(a) || HasContainer(b)) && HasCode(c) == (HasCode(a) || HasCode(b))
    && Kept(c, open) == Kept(a, open) + Kept(b, after)
    && KeptChars(c, open) == KeptChars(a, open) + KeptChars(b, after)
    && KeptCodes(c, open, pending) == KeptCodes(a, open, pending) + KeptCodes(b, after, Pending(a, open, pending))
    && LinksOf(c) == LinksOf(a) + LinksOf(b)
    && forall known :: TimeOf(c, known) == TimeOf(b, TimeOf(a, known))
  }

  lemma NilReads(open: bool, pending: Option<string>)
    ensures Kept(Nil, open) == "" && KeptChars(Nil, open) == "" && KeptCodes(Nil, open, pending) == []
    ensures LinksOf(Nil) == [] && !HasCode(Nil) && !HasContainer(Nil) && forall known :: TimeOf(Nil, known) == known
  {
  }

  /** An element by itself reads as its inside, except for the code it may be. */
  lemma ElementReads(attrs: Attrs, inside: Forest, open: bool, pending: Option<string>)
    ensures
      var one, inner := Div(attrs, inside, Nil), open || attrs.textContainer;
      && Kept(one, open) == Kept(inside, inner) && KeptChars(one, open) == KeptChars(inside, inner)
      && KeptCodes(one, open, pending) == KeptCodes(inside, inner, pending)
      && HasCode(one) == HasCode(inside) && HasContainer(one) == (attrs.textContainer || HasContainer(inside))
      && LinksOf(one) == LinksOf(inside) && forall known :: TimeOf(one, known) == TimeOf(inside, known)
    ensures
      var one := Code(attrs, inside, Nil);
      && Kept(one, open) == Kept(inside, open) && KeptChars(one, open) == KeptChars(inside, open)
      && KeptCodes(one, open, pending) == KeptCode(inside, open, pending, KeptCodes(inside, open, Begun(open, pending)))
      && HasContainer(one) == HasContainer(inside)
      && LinksOf(one) == LinksOf(inside) && forall known :: TimeOf(one, known) == TimeOf(inside, known)
  {
    var inner := open || attrs.textContainer;
    NilReads(open, pending);
    assert Kept(inside, inner) + "" == Kept(inside, inner) && Kept(inside, open) + "" == Kept(inside, open);
    assert KeptChars(inside, inner) + "" == KeptChars(inside, inner);
    assert KeptChars(inside, open) + "" == KeptChars(inside, open);
    assert LinksOf(inside) + [] == LinksOf(inside);
    assert KeptCodes(inside, inner, pending) + [] == KeptCodes(inside, inner, pending);
    var code := KeptCode(inside, open, pending, KeptCodes(inside, open, Begun(open, pending)));
    assert code + [] == code;
  }

  lemma LeafReads(e: Event, open: bool, pending: Option<string>)
    ensures
      var one := Leaf(e, Nil);
      && Kept(one, open) == (if open then TextIn(e) else "") && KeptChars(one, open) == (if open then DataIn(e) else "")
      && KeptCodes(one, open, pending) == [] && !HasCode(one) && !HasContainer(one)
      && LinksOf(one)
         == (if e.StartTag? && e.tag == ATag && e.attrs.href != ""
             then [Cut(MAX_MESSAGE_URL_CHARS, e.attrs.href)] else [])
      && forall known ::
           (TimeOf(one, known)
            == if e.StartTag? && e.tag == TimeTag && e.attrs.datetime != "" then Some(e.attrs.datetime) else known)
  {
    NilReads(open, pending);
    assert TextIn(e) + "" == TextIn(e) && DataIn(e) + "" == DataIn(e);
  }

  function First(f: Forest): Forest
    requires !f.Nil?
  {
    f.(rest := Nil)
  }

  lemma FirstJoinsRest(f: Forest, open: bool, pending: Option<string>)
    requires !f.Nil?
    ensures Joins(First(f), f.rest, f, open, pending)
  {
    match f
    case Leaf(e, rest) =>
      assert First(f) == Leaf(e, Nil);
      LeafReads(e, open, pending);
    case Div(attrs, inside, rest) =>
      assert First(f) == Div(attrs, inside, Nil);
      ElementReads(attrs, inside, open, pending);
    case Code(attrs, inside, rest) =>
      assert First(f) == Code(attrs, inside, Nil);
      ElementReads(attrs, inside, open, pending);
  }

  lemma CodesJoin(lib: Library, codes: seq<string>, a: Forest, b: Forest,
                  c: Forest, open: bool, pending: Option<string>)
    requires Joins(a, b, c, open, pending)
    ensures
      var after, mid := open && !HasContainer(a), Bound(Pending(a, open, pending));
      AddCodes(lib, AddCodes(lib, codes, CutAll(KeptCodes(a, open, pending))), CutAll(KeptCodes(b, after, mid)))
      == AddCodes(lib, codes, CutAll(KeptCodes(c, open, pending)))
  {
    var after, mid := open && !HasContainer(a), Pending(a, open, pending);
    BoundTwice(mid);
    BoundKeepsCodes(b, after, Bound(mid), mid);
    CutAllSplits(KeptCodes(a, open, pending), KeptCodes(b, after, mid));
    AddCodesSplits(lib, codes, CutAll(KeptCodes(a, open, pending)), CutAll(KeptCodes(b, after, mid)));
  }

  lemma BoundTwice(pending: Option<string>)
    ensures Bound(Bound(pending)) == Bound(pending)
  {
  }

  lemma DraftJoins(lib: Library, d: Draft, a: Forest, b: Forest, c: Forest, open: bool, pending: Option<string>)
    requires Joins(a, b, c, open, pending)
    ensures DraftAfter(lib, DraftAfter(lib, d, a, open, pending), b,
                       open && !HasContainer(a), Bound(Pending(a, open, pending)))
         == DraftAfter(lib, d, c, open, pending)
  {
    CutJoins(MAX_MESSAGE_TEXT_CHARS, d.text, Kept(a, open), Kept(b, open && !HasContainer(a)));
    CutJoins(MAX_LINKS_PER_MESSAGE, d.links, LinksOf(a), LinksOf(b));
    CodesJoin(lib, d.codes, a, b, c, open, pending);
  }

  lemma PendingJoins(a: Forest, b: Forest, c: Forest, open: bool, pending: Option<string>)
    requires Joins(a, b, c, open, pending)
    ensures Bound(Pending(b, open && !HasContainer(a), Bound(Pending(a, open, pending))))
         == Bound(Pending(c, open, pending))
  {
    var first, second := KeptChars(a, open), KeptChars(b, open && !HasContainer(a));
    CollectBound(Collect(pending, first), second);
    if pending.Some? {
      assert pending.value + first + second == pending.value + (first + second);
    }
  }

  lemma AfterJoins(lib: Library, s: State, a: Forest, b: Forest, c: Forest)
    requires s.current.Some? && Joins(a, b, c, IsOpen(s), PendingIn(s))
    ensures After(lib, After(lib, s, a), b) == After(lib, s, c)
  {
    var d, open, pending := s.current.value, IsOpen(s), PendingIn(s);
    var d1, p1 := DraftAfter(lib, d, a, open, pending), Bound(Pending(a, open, pending));
    var after := open && !HasContainer(a);
    DraftJoins(lib, d, a, b, c, open, pending);
    PendingJoins(a, b, c, open, pending);
    MovedTwice(s, d1, HasContainer(a), p1,
               DraftAfter(lib, d1, b, after, p1), HasContainer(b), Bound(Pending(b, after, p1)));
  }

  lemma LeafStep(lib: Library, s: State, e: Event)
    requires Inside(s) && IsLeaf(e)
    ensures Step(lib, s, e) == After(lib, s, Leaf(e, Nil))
  {
    var d := s.current.value;
    LeafReads(e, IsOpen(s), PendingIn(s));
    assert d.text + "" == d.text && s.codeBuffer + "" == s.codeBuffer && d.links + [] == d.links;
    assert AddCodes(lib, d.codes, CutAll([])) == d.codes;
  }

  // ---- Elements ----

  /** Main result 1: inside a message the counters and buffers follow the recursive reading, whatever
      is nested in what. */
  lemma {:induction false} InsideRun(lib: Library, s: State, f: Forest)
    requires Inside(s) && LeavesOk(f)
    ensures Run(lib, s, Events(f)) == After(lib, s, f)
    decreases f, 1
  {
    match f
    case Nil =>
      NilAfter(lib, s);
    case Leaf(e, rest) =>
      LeafStep(lib, s, e);
      FirstThenRest(lib, s, f, [e]);
    case Div(attrs, inside, rest) =>
      DivRun(lib, s, attrs, inside);
      FirstThenRest(lib, s, f, [StartTag(DivTag, attrs)] + Events(inside) + [EndTag(DivTag)]);
    case Code(attrs, inside, rest) =>
      CodeRun(lib, s, attrs, inside);
      FirstThenRest(lib, s, f, [StartTag(CodeTag, attrs)] + Events(inside) + [EndTag(CodeTag)]);
  }

  lemma NilAfter(lib: Library, s: State)
    requires Inside(s)
    ensures After(lib, s, Nil) == s
  {
    var d := s.current.value;
    assert d.text + "" == d.text && s.codeBuffer + "" == s.codeBuffer && d.links + [] == d.links;
    assert AddCodes(lib, d.codes, CutAll([])) == d.codes;
  }

  lemma {:induction false} FirstThenRest(lib: Library, s: State, f: Forest, events: seq<Event>)
    requires !f.Nil? && Inside(s) && LeavesOk(f.rest)
    requires Run(lib, s, events) == After(lib, s, First(f)) && Events(f) == events + Events(f.rest)
    ensures Run(lib, s, Events(f)) == After(lib, s, f)
    decreases f, 0
  {
    var s1 := After(lib, s, First(f));
    AfterInside(lib, s, First(f));
    RunSplits(lib, s, events, Events(f.rest));
    InsideRun(lib, s1, f.rest);
    FirstJoinsRest(f, IsOpen(s), PendingIn(s));
    AfterJoins(lib, s, First(f), f.rest, f);
  }

  lemma {:induction false} DivRun(lib: Library, s: State, attrs: Attrs, inside: Forest)
    requires Inside(s) && LeavesOk(inside)
    ensures Run(lib, s, [StartTag(DivTag, attrs)] + Events(inside) + [EndTag(DivTag)])
         == After(lib, s, Div(attrs, inside, Nil))
    decreases inside, 2
  {
    var s1 := Start(s, DivTag, attrs);
    assert Inside(s1);
    InsideRun(lib, s1, inside);
    ElementRun(lib, s, StartTag(DivTag, attrs), Events(inside), EndTag(DivTag));
    OneDiv(lib, s, s1, attrs, inside);
  }

  lemma ElementRun(lib: Library, s: State, open: Event, inside: seq<Event>, close: Event)
    ensures Run(lib, s, [open] + inside + [close]) == Step(lib, Run(lib, Step(lib, s, open), inside), close)
  {
    RunSplits(lib, s, [open] + inside, [close]);
    RunSplits(lib, s, [open], inside);
    assert Run(lib, s, [open]) == Step(lib, s, open);
  }

  /** Closing a container closes the text, and so did any container inside. */
  lemma OneDiv(lib: Library, s: State, s1: State, attrs: Attrs, inside: Forest)
    requires Inside(s) && s1 == Start(s, DivTag, attrs)
    ensures End(lib, After(lib, s1, inside), DivTag) == After(lib, s, Div(attrs, inside, Nil))
  {
    ElementReads(attrs, inside, IsOpen(s), PendingIn(s));
  }

  lemma {:induction false} CodeRun(lib: Library, s: State, attrs: Attrs, inside: Forest)
    requires Inside(s) && LeavesOk(inside)
    ensures Run(lib, s, [StartTag(CodeTag, attrs)] + Events(inside) + [EndTag(CodeTag)])
         == After(lib, s, Code(attrs, inside, Nil))
    decreases inside, 2
  {
    var s1 := Start(s, CodeTag, attrs);
    assert Inside(s1);
    InsideRun(lib, s1, inside);
    ElementRun(lib, s, StartTag(CodeTag, attrs), Events(inside), EndTag(CodeTag));
    OneCode(lib, s, s1, attrs, inside);
  }

  /** Closing a code element adds what was collected unless an inner code element closed before. */
  lemma OneCode(lib: Library, s: State, s1: State, attrs: Attrs, inside: Forest)
    requires Inside(s) && s1 == Start(s, CodeTag, attrs)
    ensures End(lib, After(lib, s1, inside), CodeTag) == After(lib, s, Code(attrs, inside, Nil))
  {
    var open, begun := IsOpen(s), Begun(IsOpen(s), PendingIn(s));
    ElementReads(attrs, inside, open, PendingIn(s));
    assert PendingIn(s1) == begun && IsOpen(s1) == open;
    if !HasCode(inside) {
      NoCodesWithoutCode(inside, open, begun);
      assert AddCodes(lib, s.current.value.codes, CutAll([])) == s.current.value.codes;
      if begun.Some? {
        OneCodeAdded(lib, s.current.value.codes, begun.value + KeptChars(inside, open));
      }
    }
  }

  lemma OneCodeAdded(lib: Library, codes: seq<string>, code: string)
    ensures AddCodes(lib, codes, CutAll([code])) == AddCode(lib, codes, Cut(MAX_FORMATTED_CODE_CHARS, code))
  {
    assert CutAll([code]) == [Cut(MAX_FORMATTED_CODE_CHARS, code)];
    assert [Cut(MAX_FORMATTED_CODE_CHARS, code)][1..] == [];
  }

  lemma {:induction false} NoCodesWithoutCode(f: Forest, open: bool, pending: Option<string>)
    requires !HasCode(f)
    ensures KeptCodes(f, open, pending) == []
    decreases f
  {
    match f
    case Nil =>
    case Leaf(e, rest) => NoCodesWithoutCode(rest, open, Collect(pending, if open then DataIn(e) else ""));
    case Div(attrs, inside, rest) =>
      var inner := open || attrs.textContainer;
      NoCodesWithoutCode(inside, inner, pending);
      NoCodesWithoutCode(rest, open && !attrs.textContainer && !HasContainer(inside), Pending(inside, inner, pending));
  }

  // ---- Whole pages ----

  ghost predicate Outside(s: State) {
    s.current.None? && s.textDepth.None? && !s.inCode && s.codeBuffer == ""
  }

  ghost predicate Reads(lib: Library, s: State, events: seq<Event>, posts: seq<Post>) {
    var t := Run(lib, s, events);
    Outside(t) && t.messages == s.messages + posts
  }

  /** Main result 2: on every well-nested page the counters and buffers yield exactly the messages
      of the recursive reading, with texts, links and codes bounded as it says. */
  lemma {:induction false} ParserReadsTheTree(lib: Library, s: State, f: Forest)
    requires Outside(s) && LeavesOk(f)
    ensures Reads(lib, s, Events(f), PostsRead(lib, f))
    decreases f
  {
    match f
    case Nil =>
      assert s.messages + [] == s.messages;
    case Leaf(e, rest) =>
      ParserReadsTheTree(lib, s, rest);
    case Div(attrs, inside, rest) =>
      var element := [StartTag(DivTag, attrs)] + Events(inside) + [EndTag(DivTag)];
      var posts := if attrs.header.Some? then PostRead(lib, attrs.header.value, inside) else PostsRead(lib, inside);
      ElementRun(lib, s, StartTag(DivTag, attrs), Events(inside), EndTag(DivTag));
      if attrs.header.Some? {
        MessageRun(lib, s, attrs, inside);
      } else {
        ParserReadsTheTree(lib, s, inside);
      }
      ParserReadsTheTree(lib, Run(lib, s, element), rest);
      ReadsJoin(lib, s, element, posts, Events(rest), PostsRead(lib, rest));
    case Code(attrs, inside, rest) =>
      var element := [StartTag(CodeTag, attrs)] + Events(inside) + [EndTag(CodeTag)];
      ElementRun(lib, s, StartTag(CodeTag, attrs), Events(inside), EndTag(CodeTag));
      ParserReadsTheTree(lib, s, inside);
      ParserReadsTheTree(lib, Run(lib, s, element), rest);
      ReadsJoin(lib, s, element, PostsRead(lib, inside), Events(rest), PostsRead(lib, rest));
  }

  lemma ReadsJoin(lib: Library, s: State, a: seq<Event>, posts: seq<Post>, b: seq<Event>, more: seq<Post>)
    requires Reads(lib, s, a, posts) && Reads(lib, Run(lib, s, a), b, more)
    ensures Reads(lib, s, a + b, posts + more)
  {
    RunSplits(lib, s, a, b);
    assert s.messages + posts + more == s.messages + (posts + more);
  }

  lemma MessageRun(lib: Library, s: State, attrs: Attrs, inside: Forest)
    requires Outside(s) && attrs.header.Some? && LeavesOk(inside)
    ensures Reads(lib, s, [StartTag(DivTag, attrs)] + Events(inside) + [EndTag(DivTag)],
                  PostRead(lib, attrs.header.value, inside))
  {
    var s1 := Start(s, DivTag, attrs);
    ElementRun(lib, s, StartTag(DivTag, attrs), Events(inside), EndTag(DivTag));
    InsideRun(lib, s1, inside);
    MessageEnd(lib, s, s1, attrs.header.value, inside);
  }

  lemma MessageEnd(lib: Library, s: State, s1: State, header: Header, inside: Forest)
    requires Outside(s) && s1 == s.(current := Some(Draft(header, "", [], [], None)), divDepth := 1)
    ensures
      var t := End(lib, After(lib, s1, inside), DivTag);
      Outside(t) && t.messages == s.messages + PostRead(lib, header, inside)
  {
    var s2 := After(lib, s1, inside);
    assert s2.divDepth == 1 && s2.textDepth.None? && !s2.inCode;
    DraftOfMessage(lib, header, inside);
    assert s.messages + [] == s.messages;
  }

  lemma DraftOfMessage(lib: Library, header: Header, inside: Forest)
    ensures
      var raw := CutAll(KeptCodes(inside, false, None));
      DraftAfter(lib, Draft(header, "", [], [], None), inside, false, None)
      == Draft(header, Cut(MAX_MESSAGE_TEXT_CHARS, Kept(inside, false)), Cut(MAX_LINKS_PER_MESSAGE, LinksOf(inside)),
               Cut(MAX_FORMATTED_CODES_PER_MESSAGE, NonEmpty(Stripped(lib, raw))), TimeOf(inside, None))
  {
    var raw := CutAll(KeptCodes(inside, false, None));
    AddCodesIsCut(lib, [], raw);
    assert "" + Kept(inside, false) == Kept(inside, false) && [] + LinksOf(inside) == LinksOf(inside);
    assert [] + NonEmpty(Stripped(lib, raw)) == NonEmpty(Stripped(lib, raw));
  }

  /** What a post shows of the message it was read from: up to 50 links and 50 codes of the message in page
      order, each once, the start of its text, and its last time stamp. */
  ghost predicate Shows(lib: Library, header: Header, inside: Forest, post: Post) {
    var text, links := Kept(inside, false), LinksOf(inside);
    var codes := NonEmpty(Stripped(lib, CutAll(KeptCodes(inside, false, None))));
    && post.header == header && post.publishedAt == TimeOf(inside, None)
    && post.text != "" && post.text == lib.normalize(text[..Min(12000, |text|)])
    && ListsFirsts(links[..Min(50, |links|)], post.links)
    && ListsFirsts(Stripped(lib, codes[..Min(50, |codes|)]), post.codes)
  }

  /** Main result 3: reading a message element adds nothing if the start of its text reads as empty, and otherwise
      one post, with the message's first links and codes, each once and in page order. */
  lemma MessageIsShown(lib: Library, s: State, attrs: Attrs, inside: Forest)
    requires Outside(s) && attrs.header.Some? && LeavesOk(inside)
    ensures
      var t := Run(lib, s, [StartTag(DivTag, attrs)] + Events(inside) + [EndTag(DivTag)]);
      var text := Kept(inside, false);
      if lib.normalize(text[..Min(12000, |text|)]) == "" then t.messages == s.messages
      else exists post :: t.messages == s.messages + [post] && Shows(lib, attrs.header.value, inside, post)
  {
    MessageRun(lib, s, attrs, inside);
    PostShows(lib, attrs.header.value, inside);
    var posts := PostRead(lib, attrs.header.value, inside);
    assert s.messages + [] == s.messages;
    assert posts != [] ==> posts == [posts[0]];
  }

  lemma PostShows(lib: Library, header: Header, inside: Forest)
    ensures |PostRead(lib, header, inside)| <= 1
    ensures
      var text := Kept(inside, false);
      PostRead(lib, header, inside) == [] <==> lib.normalize(text[..Min(12000, |text|)]) == ""
    ensures PostRead(lib, header, inside) != [] ==> Shows(lib, header, inside, PostRead(lib, header, inside)[0])
  {
    var links, codes := LinksOf(inside), NonEmpty(Stripped(lib, CutAll(KeptCodes(inside, false, None))));
    DistinctListsFirsts(Cut(MAX_LINKS_PER_MESSAGE, links));
    DistinctListsFirsts(Stripped(lib, Cut(MAX_FORMATTED_CODES_PER_MESSAGE, codes)));
    CutIsStart(MAX_MESSAGE_TEXT_CHARS, Kept(inside, false));
    CutIsStart(MAX_LINKS_PER_MESSAGE, links);
    CutIsStart(MAX_FORMATTED_CODES_PER_MESSAGE, codes);
  }

  lemma CutIsStart<T>(n: nat, s: seq<T>)
    ensures Cut(n, s) == s[..Min(n, |s|)]
  {
  }

  // ---- The plain reading, and what nesting loses of it ----

  /** All characters below text containers; a line break reads as a newline. */
  function TextOf(f: Forest, inText: bool): string {
    match f
    case Nil => ""
    case Leaf(e, rest) => (if inText then TextIn(e) else "") + TextOf(rest, inText)
    case Div(attrs, inside, rest) => TextOf(inside, inText || attrs.textContainer) + TextOf(rest, inText)
    case Code(_, inside, rest) => TextOf(inside, inText) + TextOf(rest, inText)
  }

  /** The characters below a node, line breaks not counted. */
  function CharsOf(f: Forest): string {
    match f
    case Nil => ""
    case Leaf(e, rest) => (if e.Data? then e.text else "") + CharsOf(rest)
    case Div(_, inside, rest) => CharsOf(inside) + CharsOf(rest)
    case Code(_, inside, rest) => CharsOf(inside) + CharsOf(rest)
  }

  /** The innermost code elements below text containers. */
  function CodesOf(f: Forest, inText: bool): seq<string> {
    match f
    case Nil => []
    case Leaf(_, rest) => CodesOf(rest, inText)
    case Div(attrs, inside, rest) => CodesOf(inside, inText || attrs.textContainer) + CodesOf(rest, inText)
    case Code(_, inside, rest) =>
      (if inText && !HasCode(inside) then [CharsOf(inside)] else CodesOf(inside, inText)) + CodesOf(rest, inText)
  }

  function PostOf(lib: Library, header: Header, inside: Forest): seq<Post> {
    PostFrom(lib, header, inside, TextOf(inside, false), CodesOf(inside, false))
  }

  function PostsOf(lib: Library, f: Forest): seq<Post> {
    match f
    case Nil => []
    case Leaf(_, rest) => PostsOf(lib, rest)
    case Div(attrs, inside, rest) =>
      (if attrs.header.Some? then PostOf(lib, attrs.header.value, inside) else PostsOf(lib, inside))
      + PostsOf(lib, rest)
    case Code(_, inside, rest) => PostsOf(lib, inside) + PostsOf(lib, rest)
  }

  /** How many characters and line breaks lie below a text container after one inside it has closed. */
  function Lost(f: Forest, open: bool, inText: bool): nat {
    match f
    case Nil => 0
    case Leaf(e, rest) => (if inText && !open then |TextIn(e)| else 0) + Lost(rest, open, inText)
    case Div(attrs, inside, rest) =>
      Lost(inside, open || attrs.textContainer, inText || attrs.textContainer)
      + Lost(rest, open && !attrs.textContainer && !HasContainer(inside), inText)
    case Code(_, inside, rest) => Lost(inside, open, inText) + Lost(rest, open && !HasContainer(inside), inText)
  }

  /** How many innermost code elements start there, unless one is under way that is still empty. */
  function LostCodes(f: Forest, open: bool, inText: bool, pending: Option<string>): nat {
    match f
    case Nil => 0
    case Leaf(e, rest) => LostCodes(rest, open, inText, Collect(pending, if open then DataIn(e) else ""))
    case Div(attrs, inside, rest) =>
      var inner := open || attrs.textContainer;
      LostCodes(inside, inner, inText || attrs.textContainer, pending)
      + LostCodes(rest, open && !attrs.textContainer && !HasContainer(inside), inText, Pending(inside, inner, pending))
    case Code(_, inside, rest) =>
      (if HasCode(inside) then LostCodes(inside, open, inText, Begun(open, pending))
       else if inText && !open && pending != Some("") then 1 else 0)
      + LostCodes(rest, open && !HasContainer(inside), inText, None)
  }

  /** Lengths tell: what is kept and what is lost are together all there is. */
  lemma {:induction false} KeptOrLost(f: Forest, open: bool, inText: bool)
    requires open ==> inText
    ensures |Kept(f, open)| + Lost(f, open, inText) == |TextOf(f, inText)|
    ensures Lost(f, open, inText) == 0 ==> Kept(f, open) == TextOf(f, inText)
    ensures inText && Lost(f, open, inText) == 0 ==> KeptChars(f, open) == CharsOf(f)
  {
    match f
    case Nil =>
    case Leaf(e, rest) => KeptOrLost(rest, open, inText);
    case Div(attrs, inside, rest) =>
      KeptOrLost(inside, open || attrs.textContainer, inText || attrs.textContainer);
      KeptOrLost(rest, open && !attrs.textContainer && !HasContainer(inside), inText);
    case Code(_, inside, rest) =>
      KeptOrLost(inside, open, inText);
      KeptOrLost(rest, open && !HasContainer(inside), inText);
  }

  lemma {:induction false} NoPlainCodesWithoutCode(f: Forest, inText: bool)
    requires !HasCode(f)
    ensures CodesOf(f, inText) == []
  {
    match f
    case Nil =>
    case Leaf(_, rest) => NoPlainCodesWithoutCode(rest, inText);
    case Div(attrs, inside, rest) =>
      NoPlainCodesWithoutCode(inside, inText || attrs.textContainer);
      NoPlainCodesWithoutCode(rest, inText);
  }

  ghost predicate Shorter(a: seq<string>, b: seq<string>, lost: nat) {
    |a| <= |b| && (a == b <==> lost == 0)
  }

  lemma ShorterParts(a1: seq<string>, b1: seq<string>, lost1: nat, a2: seq<string>, b2: seq<string>, lost2: nat)
    requires Shorter(a1, b1, lost1) && Shorter(a2, b2, lost2)
    ensures Shorter(a1 + a2, b1 + b2, lost1 + lost2)
  {
    if a1 + a2 == b1 + b2 {
      assert a1 == (a1 + a2)[..|a1|] && b1 == (b1 + b2)[..|b1|];
      assert a2 == (a1 + a2)[|a1|..] && b2 == (b1 + b2)[|b1|..];
    }
  }

  /** One code element with none inside: kept as it is, with what came before it, or not at all. */
  lemma OneCodeKeptOrLost(inside: Forest, open: bool, inText: bool, pending: Option<string>)
    requires (open ==> inText) && (pending.Some? ==> inText) && Lost(inside, open, inText) == 0 && !HasCode(inside)
    ensures Shorter(KeptCode(inside, open, pending, KeptCodes(inside, open, Begun(open, pending))),
                    if inText then [CharsOf(inside)] else CodesOf(inside, inText),
                    if inText && !open && pending != Some("") then 1 else 0)
  {
    KeptOrLost(inside, open, inText);
    NoPlainCodesWithoutCode(inside, inText);
    var begun, own := Begun(open, pending), CharsOf(inside);
    if begun.Some? {
      assert begun.value == "" ==> begun.value + own == own;
      assert begun.value != "" ==> |begun.value + own| > |own|;
    }
  }

  lemma {:induction false} CodesKeptOrLost(f: Forest, open: bool, inText: bool, pending: Option<string>)
    requires (open ==> inText) && (pending.Some? ==> inText) && Lost(f, open, inText) == 0
    ensures Shorter(KeptCodes(f, open, pending), CodesOf(f, inText), LostCodes(f, open, inText, pending))
    decreases f
  {
    match f
    case Nil =>
    case Leaf(e, rest) =>
      CodesKeptOrLost(rest, open, inText, Collect(pending, if open then DataIn(e) else ""));
    case Div(attrs, inside, rest) =>
      var inner, after := open || attrs.textContainer, open && !attrs.textContainer && !HasContainer(inside);
      var below, mid := inText || attrs.textContainer, Pending(inside, inner, pending);
      CodesKeptOrLost(inside, inner, below, pending);
      CodesKeptOrLost(rest, after, inText, mid);
      ShorterParts(KeptCodes(inside, inner, pending), CodesOf(inside, below), LostCodes(inside, inner, below, pending),
                   KeptCodes(rest, after, mid), CodesOf(rest, inText), LostCodes(rest, after, inText, mid));
    case Code(_, inside, rest) =>
      var after, begun := open && !HasContainer(inside), Begun(open, pending);
      CodesKeptOrLost(inside, open, inText, begun);
      CodesKeptOrLost(rest, after, inText, None);
      if !HasCode(inside) {
        OneCodeKeptOrLost(inside, open, inText, pending);
      }
      ShorterParts(KeptCode(inside, open, pending, KeptCodes(inside, open, begun)),
                   if inText && !HasCode(inside) then [CharsOf(inside)] else CodesOf(inside, inText),
                   if HasCode(inside) then LostCodes(inside, open, inText, begun)
                   else if inText && !open && pending != Some("") then 1 else 0,
                   KeptCodes(rest, after, None), CodesOf(rest, inText), LostCodes(rest, after, inText, None));
  }

  predicate LosesNothing(inside: Forest) {
    Lost(inside, false, false) == 0 && LostCodes(inside, false, false, None) == 0
  }

  /** Main result 4: which messages lose something.  The text kept is all the text below text containers
      if and only if no character or line break follows an inner container there, and text and codes
      are all there is if and only if, besides, no innermost code element starts there. */
  lemma PlainReadingExactly(inside: Forest)
    ensures Kept(inside, false) == TextOf(inside, false) <==> Lost(inside, false, false) == 0
    ensures Kept(inside, false) == TextOf(inside, false) && KeptCodes(inside, false, None) == CodesOf(inside, false)
       <==> LosesNothing(inside)
  {
    KeptOrLost(inside, false, false);
    if Lost(inside, false, false) == 0 {
      CodesKeptOrLost(inside, false, false, None);
    }
  }

  predicate MessagesLoseNothing(f: Forest) {
    match f
    case Nil => true
    case Leaf(_, rest) => MessagesLoseNothing(rest)
    case Div(attrs, inside, rest) =>
      (if attrs.header.Some? then LosesNothing(inside) else MessagesLoseNothing(inside)) && MessagesLoseNothing(rest)
    case Code(_, inside, rest) => MessagesLoseNothing(inside) && MessagesLoseNothing(rest)
  }

  /** A page whose messages lose nothing is read plainly. */
  lemma {:induction false} PageReadPlainly(lib: Library, f: Forest)
    requires MessagesLoseNothing(f)
    ensures PostsRead(lib, f) == PostsOf(lib, f)
  {
    match f
    case Nil =>
    case Leaf(_, rest) => PageReadPlainly(lib, rest);
    case Div(attrs, inside, rest) =>
      if attrs.header.Some? {
        PlainReadingExactly(inside);
      } else {
        PageReadPlainly(lib, inside);
      }
      PageReadPlainly(lib, rest);
    case Code(_, inside, rest) =>
      PageReadPlainly(lib, inside);
      PageReadPlainly(lib, rest);
  }

  /** No text container inside another, within a message. */
  predicate NotNested(f: Forest, inText: bool) {
    match f
    case Nil => true
    case Leaf(_, rest) => NotNested(rest, inText)
    case Div(attrs, inside, rest) =>
      !(inText && attrs.textContainer) && NotNested(inside, inText || attrs.textContainer) && NotNested(rest, inText)
    case Code(_, inside, rest) => NotNested(inside, inText) && NotNested(rest, inText)
  }

  /** Inside a text container that means: no further one. */
  lemma {:induction false} OneContainerStaysOpen(f: Forest)
    ensures NotNested(f, true) <==> !HasContainer(f)
  {
    match f
    case Nil =>
    case Leaf(_, rest) => OneContainerStaysOpen(rest);
    case Div(_, inside, rest) =>
      OneContainerStaysOpen(inside);
      OneContainerStaysOpen(rest);
    case Code(_, inside, rest) =>
      OneContainerStaysOpen(inside);
      OneContainerStaysOpen(rest);
  }

  /** Without nesting nothing is lost. */
  lemma {:induction false} NotNestedLosesNothing(f: Forest, inText: bool, pending: Option<string>)
    requires NotNested(f, inText)
    ensures Lost(f, inText, inText) == 0 && LostCodes(f, inText, inText, pending) == 0
    decreases f
  {
    if inText {
      OneContainerStaysOpen(f);
    }
    match f
    case Nil =>
    case Leaf(e, rest) => NotNestedLosesNothing(rest, inText, Collect(pending, if inText then DataIn(e) else ""));
    case Div(attrs, inside, rest) =>
      var inner := inText || attrs.textContainer;
      NotNestedLosesNothing(inside, inner, pending);
      NotNestedLosesNothing(rest, inText, Pending(inside, inner, pending));
    case Code(_, inside, rest) =>
      NotNestedLosesNothing(inside, inText, Begun(inText, pending));
      NotNestedLosesNothing(rest, inText, None);
  }

  // ---- Chunks ----

  /** Splitting character data in two changes nothing. */
  lemma ChunksDoNotMatter(s: State, a: string, b: string)
    ensures Text(Text(s, a), b) == Text(s, a + b)
  {
    if s.current.Some? && s.textDepth.Some? {
      var d := s.current.value;
      CutTwice(MAX_MESSAGE_TEXT_CHARS, d.text + a, b);
      assert d.text + a + b == d.text + (a + b);
      CutTwice(MAX_FORMATTED_CODE_CHARS, s.codeBuffer + a, b);
      assert s.codeBuffer + a + b == s.codeBuffer + (a + b);
    }
  }

  /** Adjacent character data joined into one piece. */
  function Joined(events: seq<Event>): seq<Event>
    decreases |events|
  {
    if |events| < 2 then events
    else if events[0].Data? && events[1].Data? then Joined([Data(events[0].text + events[1].text)] + events[2..])
    else [events[0]] + Joined(events[1..])
  }

  /** Main result 5: any two streams that differ only in how character data is split, well-nested
      or not, give the same state and messages. */
  lemma {:induction false} RunIgnoresChunks(lib: Library, s: State, events: seq<Event>)
    ensures Run(lib, s, Joined(events)) == Run(lib, s, events)
    decreases |events|
  {
    if |events| >= 2 {
      if events[0].Data? && events[1].Data? {
        var a, b := events[0].text, events[1].text;
        var joined := [Data(a + b)] + events[2..];
        RunIgnoresChunks(lib, s, joined);
        ChunksDoNotMatter(s, a, b);
        assert joined[1..] == events[2..] && events[1..][1..] == events[2..];
        assert Run(lib, s, events) == Run(lib, Step(lib, Step(lib, s, events[0]), events[1]), events[2..]);
      } else {
        RunIgnoresChunks(lib, Step(lib, s, events[0]), events[1..]);
        assert ([events[0]] + Joined(events[1..]))[1..] == Joined(events[1..]);
      }
    }
  }

  /** In particular a piece may be split anywhere in any stream. */
  lemma SplitChangesNothing(lib: Library, s: State, before: seq<Event>, a: string, b: string, after: seq<Event>)
    ensures Run(lib, s, before + [Data(a), Data(b)] + after) == Run(lib, s, before + [Data(a + b)] + after)
  {
    var t := Run(lib, s, before);
    RunSplits(lib, s, before, [Data(a), Data(b)]);
    RunSplits(lib, s, before + [Data(a), Data(b)], after);
    RunSplits(lib, s, before, [Data(a + b)]);
    RunSplits(lib, s, before + [Data(a + b)], after);
    ChunksDoNotMatter(t, a, b);
    assert [Data(a), Data(b)][1..] == [Data(b)] && [Data(b)][1..] == [] && [Data(a + b)][1..] == [];
  }

  function Container(inside: Forest, rest: Forest): Forest {
    Div(Attrs(None, true, "", ""), inside, rest)
  }

  lemma PieceReads(text: string, open: bool, inText: bool)
    ensures
      var one := Leaf(Data(text), Nil);
      && Kept(one, open) == (if open then text else "") && TextOf(one, inText) == (if inText then text else "")
      && Lost(one, open, inText) == if inText && !open then |text| else 0
  {
    assert text + "" == text && Lost(Nil, open, inText) == 0;
  }

  /** A container around an inner one and a piece of text after it: the piece is lost. */
  lemma TextAfterInnerIsLost(first: string, second: string)
    ensures
      var page := Container(Container(Leaf(Data(first), Nil), Leaf(Data(second), Nil)), Nil);
      && Kept(page, false) == first && TextOf(page, false) == first + second && Lost(page, false, false) == |second|
  {
    var a, b := Leaf(Data(first), Nil), Leaf(Data(second), Nil);
    var inner := Container(a, b);
    PieceReads(first, true, true);
    PieceReads(second, false, true);
    assert Kept(inner, true) == first + "" == first;
    assert TextOf(inner, true) == first + second && Lost(inner, true, true) == |second|;
    assert first + "" == first && (first + second) + "" == first + second;
  }

  /** The text of a message, once all of its inside was read. */
  lemma MessageText(lib: Library, attrs: Attrs, inside: Forest)
    requires attrs.header.Some? && LeavesOk(inside)
    ensures
      var t := Run(lib, Start(Initial, DivTag, attrs), Events(inside));
      t.current.Some? && t.current.value.text == Cut(MAX_MESSAGE_TEXT_CHARS, Kept(inside, false))
  {
    InsideRun(lib, Start(Initial, DivTag, attrs), inside);
    assert "" + Kept(inside, false) == Kept(inside, false);
  }

  /** A page on which text is lost: whatever follows an inner container. */
  lemma NestedContainersLoseText(lib: Library, attrs: Attrs, first: string, second: string)
    requires attrs.header.Some? && |first| <= MAX_MESSAGE_TEXT_CHARS
    ensures
      var page := Container(Container(Leaf(Data(first), Nil), Leaf(Data(second), Nil)), Nil);
      var t := Run(lib, Start(Initial, DivTag, attrs), Events(page));
      t.current.Some? && t.current.value.text == first && TextOf(page, false) == first + second
  {
    var a, b := Leaf(Data(first), Nil), Leaf(Data(second), Nil);
    assert LeavesOk(a) && LeavesOk(b) && LeavesOk(Container(a, b));
    TextAfterInnerIsLost(first, second);
    MessageText(lib, attrs, Container(Container(a, b), Nil));
  }
}
