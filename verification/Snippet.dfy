/** Message snippets (crates/pebble-core/src/snippet.rs): white space normalised, at most
    200 characters and an ellipsis. */
module Snippet {
  import opened Text

  const SNIPPET_LENGTH := 200

  function MakeSnippet(text: string): string {
    var normalized := Join(Words(text));
    if |normalized| > SNIPPET_LENGTH then normalized[..SNIPPET_LENGTH] + "..." else normalized
  }

  /** A prefix of normal text followed by an ellipsis is normal again. */
  lemma EllipsisIsNormal(s: string, n: nat)
    requires IsNormal(s) && n <= |s|
    ensures IsNormal(s[..n] + "...")
  {
    var t := s[..n] + "...";
    forall i | 0 <= i < |t| && IsWhitespace(t[i])
      ensures t[i] == ' ' && 0 < i < |t| - 1 && !IsWhitespace(t[i + 1])
    {
      assert i < n && t[i] == s[i];
      if i + 1 < n { assert t[i + 1] == s[i + 1]; }
    }
  }

  /** A snippet is normal text that keeps the words of the text, or its first 200
      characters and an ellipsis; never longer than 203 characters. */
  lemma SnippetForm(text: string)
    ensures var snippet := MakeSnippet(text);
            && IsNormal(snippet) && |snippet| <= SNIPPET_LENGTH + 3
            && (|snippet| <= SNIPPET_LENGTH ==> Words(snippet) == Words(text))
            && (|snippet| > SNIPPET_LENGTH ==>
                  exists normalized :: IsNormal(normalized) && Words(normalized) == Words(text)
                                       && |normalized| > SNIPPET_LENGTH
                                       && snippet == normalized[..SNIPPET_LENGTH] + "...")
  {
    var normalized := Join(Words(text));
    JoinIsNormal(Words(text));
    WordsOfJoin(Words(text));
    if |normalized| > SNIPPET_LENGTH { EllipsisIsNormal(normalized, SNIPPET_LENGTH); }
  }

  /** Taking a snippet of a snippet changes nothing. */
  lemma SnippetIdempotent(text: string)
    ensures MakeSnippet(MakeSnippet(text)) == MakeSnippet(text)
  {
    SnippetForm(text);
    var snippet := MakeSnippet(text);
    NormalIsJoin(snippet);
    if |snippet| > SNIPPET_LENGTH {
      var normalized := Join(Words(text));
      assert snippet[..SNIPPET_LENGTH] == normalized[..SNIPPET_LENGTH];
    }
  }

  /** Only the words of a text matter, and a short snippet tells them all. */
  lemma SnippetOfWords(a: string, b: string)
    ensures Words(a) == Words(b) ==> MakeSnippet(a) == MakeSnippet(b)
    ensures |MakeSnippet(a)| <= SNIPPET_LENGTH && MakeSnippet(a) == MakeSnippet(b) ==> Words(a) == Words(b)
  {
    SnippetForm(a);
    SnippetForm(b);
  }

  /** Normal text is its own snippet as long as it is short enough. */
  lemma NormalTextIsKept(text: string)
    ensures MakeSnippet(text) == text <==>
              IsNormal(text) && (|text| > SNIPPET_LENGTH ==> text == text[..SNIPPET_LENGTH] + "...")
  {
    SnippetForm(text);
    if IsNormal(text) { NormalIsJoin(text); }
    if MakeSnippet(text) == text && |text| > SNIPPET_LENGTH {
      assert text[..SNIPPET_LENGTH] + "..." == text;
    }
  }
}
