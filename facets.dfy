/**
 * The keyword facet classifier of embedding_utils.py: it maps a question to
 * the metadata facet ("type" value of an index entry) that a filtered search
 * would be restricted to. Nothing in the repository calls it; the server's
 * /ask handler never filters by facet.
 */
module Facets {
  import opened Text

  const TitleWords: seq<string> := ["title", "called", "named"]
  const AuthorWords: seq<string> := ["author", "who wrote", "researcher", "scientist"]
  const OrganizationWords: seq<string> :=
    ["organization", "university", "institute", "lab", "where", "affiliation"]
  const EmailWords: seq<string> := ["email", "contact", "reach out"]

  /** The five values `determine_text_key` can return. */
  const Keys: set<string> := {"title", "authors", "organizations", "emails", "chunk"}

  /** `any(word in query for word in words)`. */
  predicate HasAny(query: string, words: seq<string>) {
    exists k :: 0 <= k < |words| && Contains(query, words[k])
  }

  /**
   * `determine_text_key`: lower-case the query, then test the keyword lists
   * in the fixed order title, authors, organizations, emails; "chunk" when
   * none matches.
   */
  function DetermineTextKey(query: string): (key: string)
    ensures key in Keys
    ensures key == "title" <==> HasAny(Lower(query), TitleWords)
    ensures key == "authors" <==>
      !HasAny(Lower(query), TitleWords) && HasAny(Lower(query), AuthorWords)
    ensures key == "organizations" <==>
      !HasAny(Lower(query), TitleWords) && !HasAny(Lower(query), AuthorWords)
      && HasAny(Lower(query), OrganizationWords)
    ensures key == "emails" <==>
      !HasAny(Lower(query), TitleWords) && !HasAny(Lower(query), AuthorWords)
      && !HasAny(Lower(query), OrganizationWords) && HasAny(Lower(query), EmailWords)
    ensures key == "chunk" <==>
      !HasAny(Lower(query), TitleWords) && !HasAny(Lower(query), AuthorWords)
      && !HasAny(Lower(query), OrganizationWords) && !HasAny(Lower(query), EmailWords)
  {
    var q := Lower(query);
    if HasAny(q, TitleWords) then "title"
    else if HasAny(q, AuthorWords) then "authors"
    else if HasAny(q, OrganizationWords) then "organizations"
    else if HasAny(q, EmailWords) then "emails"
    else "chunk"
  }

  /** Position of a key in the priority order (0 is the strongest). */
  function Rank(key: string): nat {
    if key == "title" then 0
    else if key == "authors" then 1
    else if key == "organizations" then 2
    else if key == "emails" then 3
    else 4
  }

  lemma {:induction false} ContainsPrepend(t: string, s: string, sub: string)
    requires Contains(s, sub)
    ensures Contains(t + s, sub)
    decreases |t|
  {
    if |t| == 0 {
      assert t + s == s;
    } else {
      assert (t + s)[1..] == t[1..] + s;
      ContainsPrepend(t[1..], s, sub);
    }
  }

  lemma HasAnyWithin(a: string, q: string, b: string, words: seq<string>)
    requires HasAny(q, words)
    ensures HasAny(a + q + b, words)
  {
    var k :| 0 <= k < |words| && Contains(q, words[k]);
    ContainsExtend(q, b, words[k]);
    ContainsPrepend(a, q + b, words[k]);
    assert a + q + b == a + (q + b);
  }

  /**
   * Surrounding a question with more text can only move its key to a
   * facet of higher priority, never to a lower one: keyword matches are
   * substring tests, and a match of the inner question is still a match.
   */
  lemma KeyMonotoneUnderExtension(a: string, q: string, b: string)
    ensures Rank(DetermineTextKey(a + q + b)) <= Rank(DetermineTextKey(q))
  {
    LowerConcat(a, q);
    LowerConcat(a + q, b);
    var big := Lower(a + q + b);
    assert big == Lower(a) + Lower(q) + Lower(b);
    forall words: seq<string> | HasAny(Lower(q), words)
      ensures HasAny(big, words)
    {
      HasAnyWithin(Lower(a), Lower(q), Lower(b), words);
    }
  }

  /** The classifier ignores letter case: a query and its lower-cased form get the same key. */
  lemma KeyIgnoresCase(query: string)
    ensures DetermineTextKey(Lower(query)) == DetermineTextKey(query)
  {
    LowerIdempotent(query);
  }

  /** "What is the title of this paper?" is routed to the title facet. */
  lemma TitleQuestionExample()
    ensures DetermineTextKey("What is the title of this paper?") == "title"
  {
    var s := "What is the title of this paper?";
    var q := Lower(s);
    assert s[12..17] == "title";
    assert q[12..17] == Lower(s[12..17]);
    assert Lower("title") == "title";
    assert OccursAt(q, "title", 12);
    ContainsAt(q, "title");
    assert Contains(q, TitleWords[0]);
  }
}
