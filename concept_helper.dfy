/** The concept list of the web front end (`conceptHelper.ts`): a stored list of transaction concepts,
    compared without regard to case. The JSON file is the `file` field of a `ConceptStore`; `None`
    stands for a file that is missing or cannot be parsed, which reads as the empty list. */
module ConceptHelper {
  import opened Entities

  /** `toLowerCase` on the ASCII letters. */
  function LowerChar(c: char): char {
    if 'A' <= c <= 'Z' then (c as int + 32) as char else c
  }

  function Lower(s: string): (r: string)
    ensures |r| == |s| && forall i :: 0 <= i < |s| ==> r[i] == LowerChar(s[i])
  {
    seq(|s|, i requires 0 <= i < |s| => LowerChar(s[i]))
  }

  /** `c.toLowerCase() === x.toLowerCase()`. */
  predicate SameConcept(c: string, x: string) {
    Lower(c) == Lower(x)
  }

  /** `concepts.some(c => ...)`: some stored concept equals `x` ignoring case. */
  predicate AnyMatch(concepts: seq<string>, x: string) {
    exists i :: 0 <= i < |concepts| && SameConcept(concepts[i], x)
  }

  /** No two stored concepts are equal ignoring case. */
  predicate NoCaseDuplicates(concepts: seq<string>) {
    forall i, j :: 0 <= i < j < |concepts| ==> !SameConcept(concepts[i], concepts[j])
  }

  /** `concepts.filter(c => c.toLowerCase() !== x.toLowerCase())`. */
  function WithoutMatches(concepts: seq<string>, x: string): (r: seq<string>)
    ensures |r| <= |concepts|
  {
    if concepts == [] then []
    else
      var c := concepts[|concepts| - 1];
      WithoutMatches(concepts[..|concepts| - 1], x) + if SameConcept(c, x) then [] else [c]
  }

  /** The filter keeps exactly the concepts that do not match, in their order: what remains is a
      subsequence of the list, none of it matches, and every non-matching concept stays. */
  lemma {:induction false} WithoutMatchesContents(concepts: seq<string>, x: string)
    ensures forall c :: c in WithoutMatches(concepts, x) <==> c in concepts && !SameConcept(c, x)
    ensures Subsequence(WithoutMatches(concepts, x), concepts)
  {
    if concepts != [] {
      var init := concepts[..|concepts| - 1];
      WithoutMatchesContents(init, x);
      var c := concepts[|concepts| - 1];
      assert concepts == init + [c];
      SubsequenceSnoc(WithoutMatches(init, x), init, c, !SameConcept(c, x));
      assert WithoutMatches(init, x) + [] == WithoutMatches(init, x);
    }
  }

  /** `a` is `b` with some entries dropped, the rest in order. */
  predicate Subsequence(a: seq<string>, b: seq<string>)
    decreases |b|
  {
    if b == [] then a == []
    else if a != [] && a[|a| - 1] == b[|b| - 1] && Subsequence(a[..|a| - 1], b[..|b| - 1]) then true
    else Subsequence(a, b[..|b| - 1])
  }

  lemma SubsequenceSnoc(a: seq<string>, b: seq<string>, c: string, keep: bool)
    requires Subsequence(a, b)
    ensures Subsequence(if keep then a + [c] else a, b + [c])
  {
    var b' := b + [c];
    assert b'[..|b'| - 1] == b;
    if keep {
      var a' := a + [c];
      assert a'[..|a'| - 1] == a;
    }
  }

  /** Dropping entries from a list keeps it free of case duplicates. */
  lemma {:induction false} SubsequenceKeepsNoDuplicates(a: seq<string>, b: seq<string>)
    requires Subsequence(a, b)
    ensures NoCaseDuplicates(b) ==> NoCaseDuplicates(a)
    ensures forall c :: c in a ==> c in b
    decreases |b|
  {
    if b != [] {
      var b' := b[..|b| - 1];
      assert NoCaseDuplicates(b) ==> NoCaseDuplicates(b') by {
        if NoCaseDuplicates(b) {
          forall i, j | 0 <= i < j < |b'| ensures !SameConcept(b'[i], b'[j]) {
            assert b'[i] == b[i] && b'[j] == b[j];
          }
        }
      }
      if a != [] && a[|a| - 1] == b[|b| - 1] && Subsequence(a[..|a| - 1], b') {
        var a' := a[..|a| - 1];
        SubsequenceKeepsNoDuplicates(a', b');
        assert a == a' + [b[|b| - 1]];
        forall i, j | 0 <= i < j < |a| && NoCaseDuplicates(b) ensures !SameConcept(a[i], a[j]) {
          if j == |a| - 1 {
            assert a[i] == a'[i] && a'[i] in b';
            var k :| 0 <= k < |b'| && b'[k] == a[i];
            assert b[k] == a[i];
          } else {
            assert a[i] == a'[i] && a[j] == a'[j];
          }
        }
      } else {
        SubsequenceKeepsNoDuplicates(a, b');
      }
    }
  }

  /** The filter leaves the list as long as it was exactly when nothing matched; so `deleteConcept`
      reports a deletion exactly when a concept matched. */
  lemma {:induction false} WithoutMatchesShorter(concepts: seq<string>, x: string)
    ensures |WithoutMatches(concepts, x)| == |concepts| <==> !AnyMatch(concepts, x)
    ensures !AnyMatch(concepts, x) ==> WithoutMatches(concepts, x) == concepts
  {
    if concepts != [] {
      var init := concepts[..|concepts| - 1];
      WithoutMatchesShorter(init, x);
      var c := concepts[|concepts| - 1];
      assert concepts == init + [c];
      if AnyMatch(init, x) {
        var i :| 0 <= i < |init| && SameConcept(init[i], x);
        assert concepts[i] == init[i];
      } else if !SameConcept(c, x) {
        forall i | 0 <= i < |concepts| ensures !SameConcept(concepts[i], x) {
          if i < |init| {
            assert concepts[i] == init[i];
          }
        }
      }
    }
  }

  /** JavaScript's `String.prototype.trim` white space: the ECMAScript WhiteSpace and LineTerminator
      code points. */
  predicate IsSpace(c: char) {
    c == '\t' || c == '\n' || c == '\U{000B}' || c == '\U{000C}' || c == '\r' || c == ' '
    || c == '\U{00A0}' || c == '\U{1680}' || ('\U{2000}' <= c <= '\U{200A}') || c == '\U{2028}' || c == '\U{2029}'
    || c == '\U{202F}' || c == '\U{205F}' || c == '\U{3000}' || c == '\U{FEFF}'
  }

  /** `s.trim()`: leading and trailing white space removed. */
  function Trim(s: string): (r: string)
    ensures r == [] || (!IsSpace(r[0]) && !IsSpace(r[|r| - 1]))
  {
    TrimEnd(TrimStart(s))
  }

  function TrimStart(s: string): (r: string)
    ensures r == [] || !IsSpace(r[0])
    ensures |r| <= |s| && r == s[|s| - |r|..]
  {
    if s != [] && IsSpace(s[0]) then TrimStart(s[1..]) else s
  }

  function TrimEnd(s: string): (r: string)
    ensures r == [] || !IsSpace(r[|r| - 1])
    ensures |r| <= |s| && r == s[..|r|]
  {
    if s != [] && IsSpace(s[|s| - 1]) then TrimEnd(s[..|s| - 1]) else s
  }

  /** Trimming the end leaves nothing exactly when the text is all white space. */
  lemma {:induction false} TrimEndEmpty(s: string)
    ensures TrimEnd(s) == [] <==> forall i :: 0 <= i < |s| ==> IsSpace(s[i])
  {
    if s != [] && IsSpace(s[|s| - 1]) {
      var init := s[..|s| - 1];
      TrimEndEmpty(init);
      if TrimEnd(s) == [] {
        forall i | 0 <= i < |s| ensures IsSpace(s[i]) {
          if i < |init| {
            assert s[i] == init[i];
          }
        }
      }
    }
  }

  /** `validateConcept`: true iff the trimmed concept is not empty. */
  function ValidateConcept(concept: string): (r: bool)
  {
    |Trim(concept)| > 0
  }

  /** A concept is valid exactly when it has a character that is not white space. */
  lemma ValidateConceptIff(concept: string)
    ensures ValidateConcept(concept) <==> exists i :: 0 <= i < |concept| && !IsSpace(concept[i])
  {
    var t := TrimStart(concept);
    TrimEndEmpty(t);
    if t != [] {
      assert !IsSpace(t[0]) && t[0] == concept[|concept| - |t|];
    } else {
      TrimStartEmpty(concept);
    }
  }

  /** Trimming the start leaves nothing exactly when the text is all white space. */
  lemma {:induction false} TrimStartEmpty(s: string)
    ensures TrimStart(s) == [] <==> forall i :: 0 <= i < |s| ==> IsSpace(s[i])
  {
    if s != [] && IsSpace(s[0]) {
      TrimStartEmpty(s[1..]);
      if TrimStart(s) == [] {
        forall i | 0 <= i < |s| ensures IsSpace(s[i]) {
          if 0 < i {
            assert s[i] == s[1..][i - 1];
          }
        }
      }
    }
  }

  /** The stored concept list. */
  class ConceptStore {
    var file: Option<seq<string>>

    constructor (initial: Option<seq<string>>)
      ensures file == initial
    {
      file := initial;
    }

    /** What `getConcepts` reads: the stored list, or the empty list when the file cannot be read. */
    function Concepts(): (r: seq<string>)
      reads this
      ensures file.None? ==> r == []
    {
      if file.Some? then file.value else []
    }

    /** `getConcepts`. */
    method GetConcepts() returns (concepts: seq<string>)
      ensures concepts == Concepts()
    {
      concepts := if file.Some? then file.value else [];
    }

    /** `addConcept`: a concept equal to a stored one ignoring case is refused and nothing is written;
        otherwise it is appended and the list written back. */
    method AddConcept(newConcept: string) returns (added: bool)
      modifies this
      ensures added <==> !AnyMatch(old(Concepts()), newConcept)
      ensures !added ==> file == old(file)
      ensures added ==> file == Some(old(Concepts()) + [newConcept])
      ensures NoCaseDuplicates(old(Concepts())) ==> NoCaseDuplicates(Concepts())
    {
      var concepts := GetConcepts();
      if AnyMatch(concepts, newConcept) {
        return false;
      }
      AddKeepsNoDuplicates(concepts, newConcept);
      concepts := concepts + [newConcept];
      file := Some(concepts);
      added := true;
    }

    /** `updateConcepts`: the whole list is replaced. */
    method UpdateConcepts(updated: seq<string>)
      modifies this
      ensures file == Some(updated) && Concepts() == updated
    {
      file := Some(updated);
    }

    /** `deleteConcept`: every concept equal to the given one ignoring case is removed, the rest kept
        in order; when nothing matched nothing is written and the answer is false. */
    method DeleteConcept(conceptToDelete: string) returns (deleted: bool)
      modifies this
      ensures deleted <==> AnyMatch(old(Concepts()), conceptToDelete)
      ensures !deleted ==> file == old(file)
      ensures deleted ==> file == Some(WithoutMatches(old(Concepts()), conceptToDelete))
      ensures !AnyMatch(Concepts(), conceptToDelete)
      ensures NoCaseDuplicates(old(Concepts())) ==> NoCaseDuplicates(Concepts())
    {
      var concepts := GetConcepts();
      var updated := WithoutMatches(concepts, conceptToDelete);
      DeleteTwice(concepts, conceptToDelete);
      WithoutMatchesShorter(concepts, conceptToDelete);
      WithoutMatchesContents(concepts, conceptToDelete);
      if |updated| == |concepts| {
        return false;
      }
      SubsequenceKeepsNoDuplicates(updated, concepts);
      UpdateConcepts(updated);
      deleted := true;
    }
  }

  /** Adding a concept to a list free of case duplicates keeps it free of them. */
  lemma AddKeepsNoDuplicates(concepts: seq<string>, x: string)
    requires !AnyMatch(concepts, x)
    ensures NoCaseDuplicates(concepts) ==> NoCaseDuplicates(concepts + [x])
  {
    var s := concepts + [x];
    forall i, j | 0 <= i < j < |s| && NoCaseDuplicates(concepts) ensures !SameConcept(s[i], s[j]) {
      if j == |concepts| {
        assert s[i] == concepts[i];
      } else {
        assert s[i] == concepts[i] && s[j] == concepts[j];
      }
    }
  }

  /** After a deletion nothing equal to the deleted concept remains, and deleting again reports false. */
  lemma DeleteTwice(concepts: seq<string>, x: string)
    ensures !AnyMatch(WithoutMatches(concepts, x), x)
  {
    WithoutMatchesContents(concepts, x);
    var w := WithoutMatches(concepts, x);
    forall i | 0 <= i < |w| ensures !SameConcept(w[i], x) {
      assert w[i] in w;
    }
  }
}
