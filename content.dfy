/**
 * The content script that fills the chat box of the page: the search for an
 * editable element (through nested shadow roots), the input simulation on
 * the element found, and the response to an `insertPrompt` message.
 *
 * A page is a list of element trees. An element records only what the
 * search looks at: its tag, its `readonly` attribute, its `contenteditable`
 * attribute, its children and the shadow root it may host.
 */
module Content {
  import opened Wrappers
  import opened Strings
  import opened Types

  datatype Tag = TextArea | RichTextArea | OtherTag

  datatype Element = Element(
    tag: Tag,
    readonly: bool,
    contentEditable: Option<string>,
    children: seq<Element>,
    shadowRoot: Shadow)

  /** The shadow root an element may host: the top-level nodes of a separate tree. */
  datatype Shadow = NoShadow | ShadowRoot(nodes: seq<Element>)

  /** An element met while walking one tree, and whether a `rich-textarea` of the same tree encloses it. */
  datatype Visit = Visit(element: Element, insideRich: bool)

  /**
   * The elements of one tree in document order (each element, then its
   * subtree, then its following siblings), as `querySelectorAll('*')` lists
   * them: shadow roots are not entered.
   */
  function Visits(nodes: seq<Element>, insideRich: bool): (r: seq<Visit>)
    ensures |r| >= |nodes|
  {
    if nodes == [] then []
    else
      var n := nodes[0];
      [Visit(n, insideRich)] + Visits(n.children, insideRich || n.tag == RichTextArea) + Visits(nodes[1..], insideRich)
  }

  /** `textarea:not([readonly])` */
  predicate Writable(v: Visit)
  {
    v.element.tag == TextArea && !v.element.readonly
  }

  /** `[contenteditable="true"]` */
  predicate Editable(v: Visit)
  {
    v.element.contentEditable == Some("true")
  }

  /** `rich-textarea textarea` */
  predicate RichInner(v: Visit)
  {
    v.element.tag == TextArea && v.insideRich
  }

  /** An element some rule of the search accepts. */
  predicate Candidate(v: Visit)
  {
    Writable(v) || Editable(v) || RichInner(v)
  }

  /** `querySelector`: the first visit in document order that the rule accepts, if any. */
  function FirstMatch(vs: seq<Visit>, rule: Visit -> bool): (r: Option<Visit>)
    ensures r.None? <==> forall i :: 0 <= i < |vs| ==> !rule(vs[i])
    ensures r.Some? ==>
      exists i :: 0 <= i < |vs| && vs[i] == r.value && rule(vs[i]) && forall j :: 0 <= j < i ==> !rule(vs[j])
  {
    if vs == [] then None
    else if rule(vs[0]) then Some(vs[0])
    else
      var r := FirstMatch(vs[1..], rule);
      if r.Some? then
        var i :| 0 <= i < |vs[1..]| && vs[1..][i] == r.value && rule(vs[1..][i]) && forall j :: 0 <= j < i ==> !rule(vs[1..][j]);
        assert vs[i + 1] == r.value && forall j :: 0 <= j < i + 1 ==> !rule(vs[j]);
        r
      else
        r
  }

  /**
   * `findTextarea` on a document or a shadow root: the three selectors in
   * their fixed order, each the first match of its tree; only when all three
   * miss are the shadow roots hosted in the tree searched, in document order.
   */
  function FindTextarea(root: seq<Element>): (r: Option<Element>)
    decreases root, 1
    ensures (exists i :: 0 <= i < |Visits(root, false)| && Writable(Visits(root, false)[i])) ==>
      r.Some? && r.value.tag == TextArea && !r.value.readonly
    ensures (exists i :: 0 <= i < |Visits(root, false)| && Candidate(Visits(root, false)[i])) ==>
      exists i :: 0 <= i < |Visits(root, false)| && Candidate(Visits(root, false)[i]) && r == Some(Visits(root, false)[i].element)
  {
    var visits := Visits(root, false);
    var writable := FirstMatch(visits, Writable);
    var editable := FirstMatch(visits, Editable);
    var rich := FirstMatch(visits, RichInner);
    if writable.Some? then Some(writable.value.element)
    else if editable.Some? then Some(editable.value.element)
    else if rich.Some? then Some(rich.value.element)
    else ScanShadows(root)
  }

  /** The loop over `querySelectorAll('*')`: the first hosted shadow root in which the search succeeds. */
  function ScanShadows(nodes: seq<Element>): Option<Element>
    decreases nodes, 0
  {
    if nodes == [] then None
    else
      var n := nodes[0];
      var here := if n.shadowRoot.ShadowRoot? then FindTextarea(n.shadowRoot.nodes) else None;
      if here.Some? then here
      else
        var below := ScanShadows(n.children);
        if below.Some? then below else ScanShadows(nodes[1..])
  }

  // ---------------------------------------------------------------------------
  // The loop visits the hosts in document order

  /** The first success of the search over the shadow roots hosted by the visited elements, in the order given. */
  function FirstShadowResult(vs: seq<Visit>): Option<Element>
  {
    if vs == [] then None
    else
      var here := if vs[0].element.shadowRoot.ShadowRoot? then FindTextarea(vs[0].element.shadowRoot.nodes) else None;
      if here.Some? then here else FirstShadowResult(vs[1..])
  }

  lemma {:induction false} FirstShadowResultAppend(a: seq<Visit>, b: seq<Visit>)
    ensures FirstShadowResult(a + b) == if FirstShadowResult(a).Some? then FirstShadowResult(a) else FirstShadowResult(b)
  {
    if a == [] {
      assert a + b == b;
    } else {
      assert (a + b)[0] == a[0];
      assert (a + b)[1..] == a[1..] + b;
      FirstShadowResultAppend(a[1..], b);
    }
  }

  /** The recursive scan is the `for` loop over every element of the tree in document order, stopping at the first success. */
  lemma {:induction false} ScanShadowsInDocumentOrder(nodes: seq<Element>, insideRich: bool)
    ensures ScanShadows(nodes) == FirstShadowResult(Visits(nodes, insideRich))
  {
    if nodes != [] {
      var n := nodes[0];
      var inner := Visits(n.children, insideRich || n.tag == RichTextArea);
      var rest := Visits(nodes[1..], insideRich);
      ScanShadowsInDocumentOrder(n.children, insideRich || n.tag == RichTextArea);
      ScanShadowsInDocumentOrder(nodes[1..], insideRich);
      var head := [Visit(n, insideRich)];
      FirstShadowResultAppend(head + inner, rest);
      FirstShadowResultAppend(head, inner);
      assert head[1..] == [];
    }
  }

  // ---------------------------------------------------------------------------
  // Reference: every element reachable from the page

  /**
   * Every element reachable from the nodes, entering every shadow root at
   * any depth. A shadow tree starts outside any `rich-textarea`: selectors
   * do not match across a shadow boundary.
   */
  function Deep(nodes: seq<Element>, insideRich: bool): seq<Visit>
  {
    if nodes == [] then []
    else
      var n := nodes[0];
      [Visit(n, insideRich)] +
      (if n.shadowRoot.ShadowRoot? then Deep(n.shadowRoot.nodes, false) else []) +
      Deep(n.children, insideRich || n.tag == RichTextArea) +
      Deep(nodes[1..], insideRich)
  }

  /** Every element of a tree is reachable from it. */
  lemma {:induction false} VisitsReachable(nodes: seq<Element>, insideRich: bool)
    ensures forall v :: v in Visits(nodes, insideRich) ==> v in Deep(nodes, insideRich)
  {
    if nodes != [] {
      var n := nodes[0];
      VisitsReachable(n.children, insideRich || n.tag == RichTextArea);
      VisitsReachable(nodes[1..], insideRich);
    }
  }

  /**
   * `findTextarea` returns null exactly when no candidate is reachable from
   * the root, whatever the nesting of shadow roots; what it returns is a
   * reachable candidate.
   */
  lemma {:induction false} FindTextareaComplete(root: seq<Element>)
    ensures FindTextarea(root).None? <==> forall v :: v in Deep(root, false) ==> !Candidate(v)
    ensures FindTextarea(root).Some? ==>
      exists v :: v in Deep(root, false) && v.element == FindTextarea(root).value && Candidate(v)
    decreases root, 1
  {
    var visits := Visits(root, false);
    VisitsReachable(root, false);
    var writable := FirstMatch(visits, Writable);
    var editable := FirstMatch(visits, Editable);
    var rich := FirstMatch(visits, RichInner);
    if writable.Some? {
      assert writable.value in visits && Candidate(writable.value);
    } else if editable.Some? {
      assert editable.value in visits && Candidate(editable.value);
    } else if rich.Some? {
      assert rich.value in visits && Candidate(rich.value);
    } else {
      assert forall v :: v in visits ==> !Candidate(v);
      ScanComplete(root, false);
    }
  }

  lemma {:induction false} ScanComplete(nodes: seq<Element>, insideRich: bool)
    requires forall v :: v in Visits(nodes, insideRich) ==> !Candidate(v)
    ensures ScanShadows(nodes).None? ==> forall v :: v in Deep(nodes, insideRich) ==> !Candidate(v)
    ensures ScanShadows(nodes).Some? ==>
      exists v :: v in Deep(nodes, insideRich) && v.element == ScanShadows(nodes).value && Candidate(v)
    decreases nodes, 0
  {
    if nodes != [] {
      var n := nodes[0];
      var inside := insideRich || n.tag == RichTextArea;
      var shadow := if n.shadowRoot.ShadowRoot? then Deep(n.shadowRoot.nodes, false) else [];
      assert Deep(nodes, insideRich) == [Visit(n, insideRich)] + shadow + Deep(n.children, inside) + Deep(nodes[1..], insideRich);
      assert Visits(nodes, insideRich) == [Visit(n, insideRich)] + Visits(n.children, inside) + Visits(nodes[1..], insideRich);
      if n.shadowRoot.ShadowRoot? {
        FindTextareaComplete(n.shadowRoot.nodes);
      }
      ScanComplete(n.children, inside);
      ScanComplete(nodes[1..], insideRich);
    }
  }

  /**
   * The third selector only ever answers when the first found nothing in the
   * same tree, so the textarea it returns is read-only.
   */
  lemma RichTextareaAnswerIsReadonly(root: seq<Element>)
    requires FirstMatch(Visits(root, false), Writable).None?
    requires FirstMatch(Visits(root, false), RichInner).Some?
    ensures FirstMatch(Visits(root, false), RichInner).value.element.readonly
  {
    var visits := Visits(root, false);
    var v := FirstMatch(visits, RichInner).value;
    var i :| 0 <= i < |visits| && visits[i] == v && RichInner(visits[i]);
    assert !Writable(visits[i]);
  }

  /**
   * The selectors apply in their fixed order at each level: a writable
   * textarea wins over any `contenteditable` element and any shadow-hosted
   * candidate, even one met earlier in the tree; a `contenteditable` element
   * wins over a textarea inside `rich-textarea`; each answer is the first of
   * its rule in document order.
   */
  lemma SelectorOrder(root: seq<Element>, i: nat)
    requires i < |Visits(root, false)|
    ensures Writable(Visits(root, false)[i]) ==>
      exists j :: 0 <= j <= i && Writable(Visits(root, false)[j]) &&
        (forall k :: 0 <= k < j ==> !Writable(Visits(root, false)[k])) &&
        FindTextarea(root) == Some(Visits(root, false)[j].element)
    ensures (Editable(Visits(root, false)[i]) &&
             forall k :: 0 <= k < |Visits(root, false)| ==> !Writable(Visits(root, false)[k])) ==>
      exists j :: 0 <= j <= i && Editable(Visits(root, false)[j]) &&
        (forall k :: 0 <= k < j ==> !Editable(Visits(root, false)[k])) &&
        FindTextarea(root) == Some(Visits(root, false)[j].element)
    ensures (RichInner(Visits(root, false)[i]) &&
             forall k :: 0 <= k < |Visits(root, false)| ==> !Writable(Visits(root, false)[k]) && !Editable(Visits(root, false)[k])) ==>
      exists j :: 0 <= j <= i && RichInner(Visits(root, false)[j]) &&
        (forall k :: 0 <= k < j ==> !RichInner(Visits(root, false)[k])) &&
        FindTextarea(root) == Some(Visits(root, false)[j].element)
  {
    var vs := Visits(root, false);
    RuleAnswer(vs, Writable, i);
    RuleAnswer(vs, Editable, i);
    RuleAnswer(vs, RichInner, i);
  }

  /** When a rule accepts position `i`, its first match lies at or before `i`. */
  lemma RuleAnswer(vs: seq<Visit>, rule: Visit -> bool, i: nat)
    requires i < |vs|
    ensures rule(vs[i]) ==>
      exists j :: 0 <= j <= i && rule(vs[j]) && (forall k :: 0 <= k < j ==> !rule(vs[k])) &&
        FirstMatch(vs, rule) == Some(vs[j])
  {
    if rule(vs[i]) {
      var j :| 0 <= j < |vs| && vs[j] == FirstMatch(vs, rule).value && rule(vs[j]) && forall k :: 0 <= k < j ==> !rule(vs[k]);
      assert j <= i;
    }
  }

  /** A writable textarea behind three nested shadow roots is found. */
  lemma ThreeShadowsDeep()
    ensures
      var box := Element(TextArea, false, None, [], NoShadow);
      var inner := Element(OtherTag, false, None, [], ShadowRoot([box]));
      var middle := Element(OtherTag, false, None, [], ShadowRoot([inner]));
      var outer := Element(OtherTag, false, None, [], ShadowRoot([middle]));
      FindTextarea([outer]) == Some(box)
  {
    var box := Element(TextArea, false, None, [], NoShadow);
    var inner := Element(OtherTag, false, None, [], ShadowRoot([box]));
    var middle := Element(OtherTag, false, None, [], ShadowRoot([inner]));
    var outer := Element(OtherTag, false, None, [], ShadowRoot([middle]));
    assert FindTextarea([box]) == Some(box) by {
      assert Visits([box], false)[0] == Visit(box, false);
    }
    assert FindTextarea([inner]) == Some(box) by {
      assert Visits([inner], false) == [Visit(inner, false)];
    }
    assert FindTextarea([middle]) == Some(box) by {
      assert Visits([middle], false) == [Visit(middle, false)];
    }
    assert Visits([outer], false) == [Visit(outer, false)];
  }

  // ---------------------------------------------------------------------------
  // Input simulation

  datatype EventKind = InputEvent | ChangeEvent

  /** A dispatched event: its kind, whether it bubbles, and the `inputType` and `data` an `InputEvent` carries. */
  datatype DomEvent = DomEvent(kind: EventKind, bubbles: bool, inputType: Option<string>, data: Option<string>)

  /** The element the prompt is written into, and the events dispatched on it so far. */
  class EditableTarget {
    const isTextArea: bool
    var value: string
    var textContent: string
    var focused: bool
    var events: seq<DomEvent>

    constructor (isTextArea: bool, value: string, textContent: string)
      ensures this.isTextArea == isTextArea && this.value == value && this.textContent == textContent
      ensures !focused && events == []
    {
      this.isTextArea := isTextArea;
      this.value := value;
      this.textContent := textContent;
      focused := false;
      events := [];
    }

    /** What the page shows in the element: a textarea's value, any other element's text. */
    function Shown(): string
      reads this
    {
      if isTextArea then value else textContent
    }

    /**
     * `simulateInput`: focus, replace the shown text with exactly `text`,
     * then announce it. A textarea gets `input` and `change`; any other
     * element a single `input` carrying `insertText` and the text. Every
     * event bubbles; nothing dispatched earlier is lost.
     */
    method SimulateInput(text: string)
      modifies this
      ensures Shown() == text && focused
      ensures isTextArea ==>
        value == text && textContent == old(textContent) &&
        events == old(events) + [DomEvent(InputEvent, true, None, None), DomEvent(ChangeEvent, true, None, None)]
      ensures !isTextArea ==>
        textContent == text && value == old(value) &&
        events == old(events) + [DomEvent(InputEvent, true, Some("insertText"), Some(text))]
      ensures events[..|old(events)|] == old(events)
      ensures forall i :: |old(events)| <= i < |events| ==> events[i].bubbles
    {
      focused := true;
      if isTextArea {
        value := text;
        events := events + [DomEvent(InputEvent, true, None, None)];
        events := events + [DomEvent(ChangeEvent, true, None, None)];
      } else {
        textContent := text;
        events := events + [DomEvent(InputEvent, true, Some("insertText"), Some(text))];
      }
    }
  }

  // ---------------------------------------------------------------------------
  // The message listener

  const InsertAction: string := "insertPrompt"
  const NotFoundMessage: string := "ไม่พบช่องพิมพ์ข้อความ กรุณาลองคลิกที่ช่องพิมพ์ก่อน"
  const FailurePrefix: string := "เกิดข้อผิดพลาด: "
  const UnknownError: string := "Unknown error"

  datatype Message = Message(action: string, text: string)

  /** The object passed to `sendResponse`. */
  datatype Response = Response(success: bool, error: Option<string>)

  /**
   * The `insertPrompt` listener: the response it sends, or none for any
   * other action. `fault` stands for an exception raised by the page while
   * the element is searched for or written.
   */
  function Respond(message: Message, document: seq<Element>, fault: Option<Thrown>): (r: Option<Response>)
    ensures r.Some? <==> message.action == InsertAction
    ensures r.Some? && fault.None? ==> (r.value.success <==> FindTextarea(document).Some?)
    ensures r.Some? && r.value.success ==> r.value.error.None?
    ensures r.Some? && !r.value.success && fault.None? ==> r.value.error == Some(NotFoundMessage)
    ensures r.Some? && fault.Some? ==> !r.value.success && r.value.error.Some? && StartsWith(r.value.error.value, FailurePrefix)
    ensures r.Some? && fault.Some? && fault.value.ErrorValue? ==> r.value.error == Some(FailurePrefix + fault.value.message)
    ensures r.Some? && fault == Some(OtherValue) ==> r.value.error == Some(FailurePrefix + UnknownError)
  {
    if message.action != InsertAction then None
    else match fault {
      case Some(ErrorValue(m)) => Some(Response(false, Some(FailurePrefix + m)))
      case Some(OtherValue) => Some(Response(false, Some(FailurePrefix + UnknownError)))
      case None =>
        if FindTextarea(document).Some? then Some(Response(true, None))
        else Some(Response(false, Some(NotFoundMessage)))
    }
  }

  /** Without a fault, an insertion succeeds exactly when some candidate is reachable from the document. */
  lemma InsertSucceedsIffReachable(text: string, document: seq<Element>)
    ensures Respond(Message(InsertAction, text), document, None).value.success <==>
      exists v :: v in Deep(document, false) && Candidate(v)
  {
    FindTextareaComplete(document);
  }

  /**
   * The whole listener when the page raises nothing: on an `insertPrompt`
   * message, search the page and, when an element is found, write the text
   * into `target`, which stands for that element; the response follows
   * `Respond`. Other messages are ignored.
   */
  method OnMessage(message: Message, document: seq<Element>, target: EditableTarget)
    returns (response: Option<Response>)
    requires FindTextarea(document).Some? ==> target.isTextArea == (FindTextarea(document).value.tag == TextArea)
    modifies target
    ensures response == Respond(message, document, None)
    ensures message.action == InsertAction && FindTextarea(document).Some? ==>
      target.Shown() == message.text && target.focused
    ensures message.action == InsertAction && FindTextarea(document).Some? && target.isTextArea ==>
      target.value == message.text && target.textContent == old(target.textContent) &&
      target.events == old(target.events) + [DomEvent(InputEvent, true, None, None), DomEvent(ChangeEvent, true, None, None)]
    ensures message.action == InsertAction && FindTextarea(document).Some? && !target.isTextArea ==>
      target.textContent == message.text && target.value == old(target.value) &&
      target.events == old(target.events) + [DomEvent(InputEvent, true, Some("insertText"), Some(message.text))]
    ensures message.action != InsertAction || FindTextarea(document).None? ==> unchanged(target)
  {
    if message.action != InsertAction {
      return None;
    }
    var found := FindTextarea(document);
    if found.Some? {
      target.SimulateInput(message.text);
      response := Some(Response(true, None));
    } else {
      response := Some(Response(false, Some(NotFoundMessage)));
    }
  }
}
