/** rag/category.py: the document classifier's closed label set and the
    normalisation of the model's reply onto it. */
module Category {
  import opened Wrappers
  import opened TextOps
  import opened Collaborators

  /** The closed set of labels, in the order the normaliser tries them. */
  const ValidCategories: seq<string> :=
    ["Medical", "Insurance", "Finance", "Utility", "Legal", "Hotel", "Retail", "Others"]

  /** The label every unrecognised reply falls back to. */
  const Fallback: string := "Others"

  const ClassifierModel: string := "claude-3-opus-20240229"

  /** The label candidate of a reply: stripped, cut at the first '.', stripped again. */
  function Cleaned(text: string): (r: string)
    ensures '.' !in r
    ensures IsStripped(r)
  {
    var s := BeforeFirst(Strip(text), '.');
    BeforeFirstHasNo(Strip(text), '.');
    StripKeepsAbsent(s, '.');
    Strip(s)
  }

  /** The first label of `cats` equal to `key` up to case. */
  function FirstMatch(key: string, cats: seq<string>): (r: Option<string>)
    ensures r.Some? ==> r.value in cats && Lower(r.value) == Lower(key)
    ensures r.None? <==> forall c :: c in cats ==> Lower(c) != Lower(key)
  {
    if cats == [] then None
    else if Lower(key) == Lower(cats[0]) then Some(cats[0])
    else FirstMatch(key, cats[1..])
  }

  /** The label `clean_and_validate_response` returns for a reply (None is a
      missing reply). */
  function Normalized(reply: Option<string>): (r: string)
    ensures r in ValidCategories
  {
    if reply.None? || reply.value == "" then Fallback
    else match FirstMatch(Cleaned(reply.value), ValidCategories)
      case Some(c) => c
      case None => Fallback
  }

  /** `clean_and_validate_response`: the first label matching the cleaned
      reply, "Others" when none does. */
  method CleanAndValidateResponse(responseText: Option<string>) returns (r: string)
    ensures r == Normalized(responseText)
  {
    if responseText.None? || responseText.value == "" {
      return Fallback;
    }
    var cleaned := Cleaned(responseText.value);
    var found := FindLabel(cleaned, ValidCategories);
    if found.Some? {
      return found.value;
    }
    return Fallback;
  }

  /** The `for category in VALID_CATEGORIES` loop: compare case-insensitively,
      return at the first match. */
  method FindLabel(cleaned: string, cats: seq<string>) returns (r: Option<string>)
    ensures r == FirstMatch(cleaned, cats)
  {
    var i := 0;
    while i < |cats|
      invariant 0 <= i <= |cats|
      invariant FirstMatch(cleaned, cats) == FirstMatch(cleaned, cats[i..])
    {
      var category := cats[i];
      assert cats[i..][1..] == cats[i + 1..];
      if Lower(cleaned) == Lower(category) {
        return Some(category);
      }
      i := i + 1;
    }
    return None;
  }

  const ClassifierInstructions: string :=
    "You are a document classifier. Classify the following document into one of these exact categories: "
    + "Medical, Insurance, Finance, Utility, Legal, Hotel, Retail, Others. "
    + "Respond ONLY with the category name. No extra text, punctuation, or explanation.\n\n"

  const CategoryCue: string := "\n\nCategory:"

  /** The classifier prompt: the instructions, the document, then the cue. */
  function ClassifierPrompt(documentText: string): (r: string)
    ensures |r| == |ClassifierInstructions| + |documentText| + |CategoryCue|
    ensures r[..|ClassifierInstructions|] == ClassifierInstructions
    ensures r[|ClassifierInstructions|..|r| - |CategoryCue|] == documentText
    ensures r[|r| - |CategoryCue|..] == CategoryCue
  {
    Framed3(ClassifierInstructions, documentText, CategoryCue);
    ClassifierInstructions + documentText + CategoryCue
  }

  function ClassifierRequest(documentText: string): Request {
    Request(ClassifierModel, 10, 0.2, ClassifierPrompt(documentText))
  }

  /** `classify_document_content`: one generation call, then the normalisation
      of the first reply block's text. Errors of the call itself and of reading
      the reply escape to the caller. */
  function ClassifyDocumentContent(documentText: string, llm: Generator): (r: Result<string, ServiceError>)
    ensures r.Success? ==> r.value in ValidCategories
    ensures r.Success? <==> FirstText(llm(ClassifierRequest(documentText))).Some?
    ensures r.Success? ==> r.value == Normalized(FirstText(llm(ClassifierRequest(documentText))))
    ensures llm(ClassifierRequest(documentText)).CallFailed? ==> r == Failure(GenerationFailed)
  {
    var reply := llm(ClassifierRequest(documentText));
    if reply.CallFailed? then Failure(GenerationFailed)
    else match FirstText(reply)
      case None => Failure(UnreadableReply)
      case Some(text) => Success(Normalized(Some(text)))
  }

  // ---------------------------------------------------------------------------
  // Properties of the normaliser

  /** No two labels are equal up to case (their first letters already differ). */
  lemma LabelsDistinctUpToCase(i: nat, j: nat)
    requires i < |ValidCategories| && j < |ValidCategories|
    requires Lower(ValidCategories[i]) == Lower(ValidCategories[j])
    ensures i == j
  {
    var a, b := ValidCategories[i], ValidCategories[j];
    assert Lower(a)[0] == LowerChar(a[0]) && Lower(b)[0] == LowerChar(b[0]);
    assert 'A' <= a[0] <= 'Z' && 'A' <= b[0] <= 'Z';
    assert a[0] == b[0];
  }

  /** A missing or empty reply yields "Others". */
  lemma NormalizedEmpty()
    ensures Normalized(None) == Fallback
    ensures Normalized(Some("")) == Fallback
  {
  }

  /** A reply whose cleaned text equals a label up to case yields that label,
      in its canonical spelling. */
  lemma NormalizedCanonical(text: string, c: string)
    requires text != "" && c in ValidCategories
    requires Lower(Cleaned(text)) == Lower(c)
    ensures Normalized(Some(text)) == c
  {
    var m := FirstMatch(Cleaned(text), ValidCategories);
    assert m.Some?;
    var i :| 0 <= i < |ValidCategories| && ValidCategories[i] == m.value;
    var j :| 0 <= j < |ValidCategories| && ValidCategories[j] == c;
    LabelsDistinctUpToCase(i, j);
  }

  /** A reply whose cleaned text matches no label, such as a label followed by
      more words, yields "Others". */
  lemma NormalizedUnmatched(text: string)
    requires forall c :: c in ValidCategories ==> Lower(c) != Lower(Cleaned(text))
    ensures Normalized(Some(text)) == Fallback
  {
  }

  /** A string of ASCII letters only. */
  predicate Letters(s: string) {
    forall k :: 0 <= k < |s| ==> 'A' <= s[k] <= 'Z' || 'a' <= s[k] <= 'z'
  }

  lemma LabelsAreWords(c: string)
    requires c in ValidCategories
    ensures c != "" && Letters(c)
  {
  }

  /** A non-empty word of letters is its own cleaned text. */
  lemma CleanedWord(c: string)
    requires c != "" && Letters(c)
    ensures Cleaned(c) == c
  {
    assert !IsSpace(c[0]) && !IsSpace(c[|c| - 1]);
    StripIdentity(c);
    assert '.' !in c by {
      assert forall k :: 0 <= k < |c| ==> c[k] != '.';
    }
    BeforeFirstAbsent(c, '.');
  }

  /** Normalising an already normalised label returns it unchanged. */
  lemma NormalizedIdempotent(reply: Option<string>)
    ensures Normalized(Some(Normalized(reply))) == Normalized(reply)
  {
    var c := Normalized(reply);
    LabelsAreWords(c);
    CleanedWord(c);
    NormalizedCanonical(c, c);
  }

  lemma FirstMatchUpToCase(k1: string, k2: string, cats: seq<string>)
    requires Lower(k1) == Lower(k2)
    ensures FirstMatch(k1, cats) == FirstMatch(k2, cats)
  {
  }

  /** Matching ignores case: replies whose cleaned texts agree up to case get the same label. */
  lemma NormalizedCaseInsensitive(s: string, t: string)
    requires s != "" && t != ""
    requires Lower(Cleaned(s)) == Lower(Cleaned(t))
    ensures Normalized(Some(s)) == Normalized(Some(t))
  {
    FirstMatchUpToCase(Cleaned(s), Cleaned(t), ValidCategories);
  }

  /** Stripping the reply and cutting it at its first '.' leaves the text
      before the '.' less its leading whitespace. */
  lemma StripThenCut(head: string, tail: string) returns (a: nat)
    requires '.' !in head
    ensures a <= |head|
    ensures forall i :: 0 <= i < a ==> IsSpace(head[i])
    ensures BeforeFirst(Strip(head + "." + tail), '.') == head[a..]
  {
    var x := head + "." + tail;
    a := SkipSpaces(x, 0);
    var b := SkipSpacesBack(x, a, |x|);
    assert x[|head|] == '.';
    forall i | 0 <= i < a
      ensures IsSpace(head[i])
    {
      assert x[i] == head[i];
    }
    var rest := x[|head| + 1..b];
    assert x[a..b] == head[a..] + "." + rest;
    SliceKeepsAbsent(head, '.', a, |head|);
    BeforeFirstAt(head[a..], '.', rest);
  }

  /** Without a '.', cleaning is stripping. */
  lemma CleanedNoDot(s: string)
    requires '.' !in s
    ensures Cleaned(s) == Strip(s)
  {
    StripKeepsAbsent(s, '.');
    BeforeFirstAbsent(Strip(s), '.');
  }

  /** Only the text before the first '.' counts. */
  lemma CleanedFirstSentence(head: string, tail: string)
    requires '.' !in head
    ensures Cleaned(head + "." + tail) == Cleaned(head)
  {
    var a := StripThenCut(head, tail);
    StripAfterSpaces(head, a);
    CleanedNoDot(head);
  }

  /** A reply "Label. more text" is classified by "Label" alone. */
  lemma NormalizedFirstSentence(head: string, tail: string)
    requires '.' !in head && head != ""
    ensures Normalized(Some(head + "." + tail)) == Normalized(Some(head))
  {
    CleanedFirstSentence(head, tail);
  }

  /** Surrounding whitespace and case do not matter: a letters-only word
      padded with whitespace, equal to a label up to case, yields that label
      (" insurance " yields "Insurance"). */
  lemma NormalizedPadded(lead: string, word: string, trail: string, c: string)
    requires forall k :: 0 <= k < |lead| ==> IsSpace(lead[k])
    requires forall k :: 0 <= k < |trail| ==> IsSpace(trail[k])
    requires word != "" && Letters(word)
    requires c in ValidCategories && Lower(word) == Lower(c)
    ensures Normalized(Some(lead + word + trail)) == c
  {
    var x := lead + word + trail;
    assert '.' !in word;
    assert '.' !in x by {
      assert x == lead + (word + trail);
      forall k | 0 <= k < |x|
        ensures x[k] != '.'
      {
        assert x[k] in lead || x[k] in word || x[k] in trail;
      }
    }
    CleanedNoDot(x);
    StripPadded(lead, word, trail);
    NormalizedCanonical(x, c);
  }

  /** A cleaned reply with whitespace inside it is no label. */
  lemma NormalizedInnerSpace(text: string, k: nat)
    requires k < |Cleaned(text)| && IsSpace(Cleaned(text)[k])
    ensures Normalized(Some(text)) == Fallback
  {
    var key := Cleaned(text);
    forall c | c in ValidCategories
      ensures Lower(c) != Lower(key)
    {
      LabelsAreWords(c);
      if k < |c| {
        assert Lower(c)[k] == LowerChar(c[k]);
        assert Lower(key)[k] == LowerChar(key[k]);
      }
    }
  }

  /** A word of letters, a space and a stripped text without '.' is its own cleaned text. */
  lemma CleanedWordThenWords(c: string, words: string)
    requires c != "" && Letters(c)
    requires words != "" && '.' !in words && IsStripped(words)
    ensures Cleaned(c + " " + words) == c + " " + words
  {
    var x := c + " " + words;
    assert '.' !in x by {
      forall k | 0 <= k < |x|
        ensures x[k] != '.'
      {
        if k < |c| {
          assert x[k] == c[k];
        } else if k > |c| {
          assert x[k] == words[k - |c| - 1];
        }
      }
    }
    CleanedNoDot(x);
    assert x[0] == c[0] && x[|x| - 1] == words[|words| - 1];
    StripIdentity(x);
  }

  /** A label followed by more words, such as "Insurance document", yields "Others". */
  lemma NormalizedLabelThenWords(c: string, words: string)
    requires c in ValidCategories
    requires words != "" && '.' !in words && IsStripped(words)
    ensures Normalized(Some(c + " " + words)) == Fallback
  {
    var x := c + " " + words;
    LabelsAreWords(c);
    CleanedWordThenWords(c, words);
    assert x[|c|] == ' ';
    NormalizedInnerSpace(x, |c|);
  }
}
