/** The shapes exchanged with the generative model: the turns of a request, the
    segments of a response, and how both programs read the text out of a response
    (`index.js` lines 68-72 and `worker.js` lines 77-81 do it the same way). */
module Messages {
  import opened Strings

  datatype Role = User | Assistant

  /** One `{ role, content }` entry of a conversation. */
  datatype Turn = Turn(role: Role, content: string)

  /** One `{ type, text }` element of a response's `content` list. */
  datatype Segment = Segment(kind: string, text: string)

  /** What a program hands to `messages.create`. */
  datatype ModelRequest = ModelRequest(model: string, maxTokens: nat, system: string, messages: seq<Turn>)

  /** What comes back from `messages.create`: a response whose `content` may be
      missing, or a thrown error with its message. */
  datatype ModelResponse = Responded(content: Option<seq<Segment>>) | Failed(message: string)

  const TextKind := "text"
  const Newline := "\n"

  predicate IsText(g: Segment) { g.kind == TextKind }

  /** `.filter(c => c.type === 'text').map(c => c.text)`. */
  function TextsOf(segments: seq<Segment>): (texts: seq<string>)
    ensures |texts| <= |segments|
  {
    if segments == [] then []
    else (if IsText(segments[0]) then [segments[0].text] else []) + TextsOf(segments[1..])
  }

  /** `(content || []).filter(…).map(…).join('\n').trim()`. */
  function ExtractText(content: Option<seq<Segment>>): string {
    var segments := if content.Some? then content.value else [];
    Trim(Join(TextsOf(segments), Newline))
  }

  /** The texts of two runs of segments are the texts of each, in order. */
  lemma {:induction false} TextsOfAppend(a: seq<Segment>, b: seq<Segment>)
    ensures TextsOf(a + b) == TextsOf(a) + TextsOf(b)
  {
    if a != [] {
      assert (a + b)[0] == a[0];
      assert (a + b)[1..] == a[1..] + b;
      TextsOfAppend(a[1..], b);
    } else {
      assert a + b == b;
    }
  }

  /** Every extracted text is the text of a text segment, and every text segment
      contributes its text. */
  lemma {:induction false} TextsOfAreTheTextSegments(segments: seq<Segment>)
    ensures forall t :: t in TextsOf(segments) <==> exists g :: g in segments && IsText(g) && g.text == t
  {
    if segments != [] {
      TextsOfAreTheTextSegments(segments[1..]);
    }
  }

  /** A segment of another type contributes nothing, wherever it stands. */
  lemma IgnoresOtherSegments(a: seq<Segment>, g: Segment, b: seq<Segment>)
    requires !IsText(g)
    ensures ExtractText(Some(a + [g] + b)) == ExtractText(Some(a + b))
  {
    assert [g][1..] == [];
    assert TextsOf([g]) == [];
    TextsOfAppend(a, [g]);
    TextsOfAppend(a + [g], b);
    TextsOfAppend(a, b);
    assert TextsOf(a + [g] + b) == TextsOf(a + b);
  }

  /** A response without `content` reads as one with no segments. */
  lemma MissingContentIsEmpty()
    ensures ExtractText(None) == ExtractText(Some([])) == ""
  {
  }

  /** The extracted text is already trimmed. */
  lemma ExtractIsTrimmed(content: Option<seq<Segment>>)
    ensures Trim(ExtractText(content)) == ExtractText(content)
  {
    var segments := if content.Some? then content.value else [];
    TrimIdempotent(Join(TextsOf(segments), Newline));
  }

  /** Nothing is extracted exactly when every text segment holds only white space
      (in particular when there is no text segment at all). */
  lemma ExtractEmptyIff(segments: seq<Segment>)
    ensures (ExtractText(Some(segments)) == "")
            <==> (forall j :: 0 <= j < |segments| && IsText(segments[j]) ==> AllSpace(segments[j].text))
  {
    var texts := TextsOf(segments);
    assert AllSpace(Newline);
    JoinAllSpaceIff(texts, Newline);
    TrimEmptyIff(Join(texts, Newline));
    TextsOfAreTheTextSegments(segments);
    if forall j :: 0 <= j < |segments| && IsText(segments[j]) ==> AllSpace(segments[j].text) {
      forall k | 0 <= k < |texts| ensures AllSpace(texts[k]) {
        assert texts[k] in texts;
      }
    }
    if forall k :: 0 <= k < |texts| ==> AllSpace(texts[k]) {
      forall j | 0 <= j < |segments| && IsText(segments[j]) ensures AllSpace(segments[j].text) {
        assert segments[j] in segments;
        assert segments[j].text in texts;
      }
    }
  }

  /** A single text segment gives its text, trimmed. */
  lemma SingleTextSegment(a: seq<Segment>, g: Segment, b: seq<Segment>)
    requires IsText(g)
    requires forall j :: 0 <= j < |a| ==> !IsText(a[j])
    requires forall j :: 0 <= j < |b| ==> !IsText(b[j])
    ensures ExtractText(Some(a + [g] + b)) == Trim(g.text)
  {
    NoTexts(a);
    NoTexts(b);
    assert [g][1..] == [];
    assert TextsOf([g]) == [g.text];
    TextsOfAppend(a, [g]);
    TextsOfAppend(a + [g], b);
  }

  lemma {:induction false} NoTexts(segments: seq<Segment>)
    requires forall j :: 0 <= j < |segments| ==> !IsText(segments[j])
    ensures TextsOf(segments) == []
  {
    if segments != [] {
      NoTexts(segments[1..]);
    }
  }
}
