/** Compiling a pattern and asking whether a text matches it, as the `~=` operator does. */
module RegexExec {
  import opened Basics
  import opened RegexSyntax
  import opened RegexStrip
  import opened RegexCode
  import opened RegexParse
  import RegexCompile
  import opened RegexMatch
  import RegexWord
  import opened RegexMust

  /** A compiled pattern; `must` is empty if no literal string is mandatory. */
  datatype Regex = Regex(g: Guts, must: seq<int>)

  datatype Compiled = Done(regex: Regex) | Failed(error: Error)

  /** Some part of the text is in the language of the tree. */
  ghost predicate Matches(t: Ere, sets: Sets, text: seq<Byte>) {
    exists i: nat, j: nat :: MatchesAt(t, sets, text, i, j)
  }

  ghost predicate MatchesAt(t: Ere, sets: Sets, text: seq<Byte>, i: nat, j: nat) {
    i <= j <= |text| && InEre(t, sets, text[i..j])
  }

  /** The operators between the end marks accept the language of the tree. */
  lemma {:induction false} CompiledAccepts(g: Guts, t: Ere)
    requires IsCompiled(g, t)
    ensures 2 <= |g.strip| && IsEre(g, 1, |g.strip| - 1, t) && g.strip[|g.strip| - 1].op == OEnd
    ensures Framed(g, 1, |g.strip| - 1)
  {
    hide EreCode, Accepts, InEre;
    assert At(g, 1, EreCode(t));
    EreCorrect(g, 1, t);
  }

  lemma {:induction false} MatchInMatches(g: Guts, t: Ere, text: seq<Byte>)
    requires IsCompiled(g, t)
    ensures 2 <= |g.strip|
    ensures MatchIn(g, 1, |g.strip| - 1, text, 0, |text|) <==> Matches(t, g.sets, text)
  {
    hide InEre, Accepts, Framed;
    CompiledAccepts(g, t);
    var hi := |g.strip| - 1;
    if i: nat, j: nat :| 0 <= i && j <= |text| && MatchAt(g, 1, hi, text, i, j) {
      assert MatchesAt(t, g.sets, text, i, j);
    }
    if i: nat, j: nat :| MatchesAt(t, g.sets, text, i, j) {
      assert MatchAt(g, 1, hi, text, i, j);
    }
  }

  /** Every text with a match contains the string. */
  ghost predicate IsMust(t: Ere, sets: Sets, must: seq<int>) {
    forall w: seq<Byte> | InEre(t, sets, w) :: Occurs(must, w)
  }

  lemma {:induction false} NoMustNoMatch(t: Ere, sets: Sets, must: seq<int>, text: seq<Byte>)
    requires IsMust(t, sets, must) && !Occurs(must, text)
    ensures !Matches(t, sets, text)
  {
    if i: nat, j: nat :| MatchesAt(t, sets, text, i, j) {
      assert text[..i] + text[i..j] + text[j..] == text;
      OccursMore(must, text[..i], text[i..j], text[j..]);
    }
  }

  /** The mandatory string of a compiled expression, which is never found malformed. */
  method MustOf(g: Guts, ghost t: Ere) returns (must: seq<int>)
    requires IsCompiled(g, t)
    ensures IsMust(t, g.sets, must)
  {
    hide IsCompiled, Framed, Leads;
    CompiledAccepts(g, t);
    var bad, found, end := FindMust(g);
    MustOccurs(g, t, end);
    return found;
  }

  /** The operators of a pattern between two end marks, or the first error. */
  method Strip(pattern: seq<Tok>) returns (error: Option<Error>, strip: Code)
    ensures match ParseEre(pattern, 0, false)
            case Bad(e) => error == Some(e)
            case Ok(t, rest, _) =>
              error == None && t != [] && BoundsOk(t) && strip == [Sop(OEnd, 0)] + EreCode(t) + [Sop(OEnd, 0)]
  {
    hide ParseEre, EreCode, BoundsOk, BranchEnds;
    var p := new RegexCompile.Parse(pattern);
    p.Emit(OEnd, 0);
    assert p.strip == [Sop(OEnd, 0)] && p.Rest() == pattern;
    p.PEre(false);
    error := p.error;
    p.Emit(OEnd, 0);
    strip := p.strip;
  }

  method RegComp(pattern: seq<Tok>, sets: Sets) returns (r: Compiled)
    ensures match ParseEre(pattern, 0, false)
            case Bad(e) => r == Failed(e)
            case Ok(t, rest, _) =>
              r.Done? && r.regex.g.sets == sets && IsCompiled(r.regex.g, t) && IsMust(t, sets, r.regex.must)
  {
    hide ParseEre, EreCode, BoundsOk, IsMust;
    var error, strip := Strip(pattern);
    if error.Some? { return Failed(error.value); }
    var g := Guts(strip, sets);
    var must := MustOf(g, ParseEre(pattern, 0, false).tree);
    return Done(Regex(g, must));
  }

  lemma {:induction false} OccursHead(x: seq<int>, u: seq<int>, k: nat)
    requires x != []
    ensures OccursAt(x, u, k) ==> k < |u| && u[k] == x[0]
  {
  }

  /** Whether the string occurs in the text. */
  method Prescreen(must: seq<int>, text: seq<Byte>) returns (found: bool)
    requires must != []
    ensures found <==> Occurs(must, text)
  {
    var dp := 0;
    while dp < |text|
      invariant dp <= |text|
      invariant forall k: nat | k < dp :: !OccursAt(must, text, k)
    {
      if text[dp] == must[0] && |text| - dp >= |must| && text[dp..dp + |must|] == must {
        assert OccursAt(must, text, dp);
        return true;
      }
      OccursHead(must, text, dp);
      dp := dp + 1;
    }
    return false;
  }

  /** Only whether there is a match; the small and the large matcher answer alike. */
  method RegExec(re: Regex, text: seq<Byte>, isWord: Byte -> bool, ghost t: Ere) returns (matched: bool)
    requires IsCompiled(re.g, t) && IsMust(t, re.g.sets, re.must)
    ensures matched <==> Matches(t, re.g.sets, text)
  {
    hide IsMust, Occurs, MatchIn, Matches;
    if re.must != [] {
      var found := Prescreen(re.must, text);
      if !found {
        NoMustNoMatch(t, re.g.sets, re.must, text);
        return false;
      }
    }
    CompiledAccepts(re.g, t);
    MatchInMatches(re.g, t, text);
    var endp;
    if |re.g.strip| <= RegexWord.WORD_BITS {
      endp := RegexWord.Fast(re.g, text, isWord, 0, |text|, 1, |re.g.strip| - 1);
    } else {
      var m := new Match(re.g, text, isWord);
      endp := m.Fast(0, |text|, 1, |re.g.strip| - 1);
    }
    return endp.Some?;
  }

  /** The `~=` operator: `None` if the pattern is in error. */
  method VmMatch(text: seq<Byte>, pattern: seq<Tok>, sets: Sets, isWord: Byte -> bool) returns (r: Option<bool>)
    ensures match ParseEre(pattern, 0, false)
            case Bad(e) => r == None
            case Ok(t, rest, _) => rest == [] && r == Some(Matches(t, sets, text))
  {
    hide IsCompiled, IsMust, Matches;
    var c := RegComp(pattern, sets);
    match c {
      case Failed(_) => return None;
      case Done(regex) =>
        ghost var t := ParseEre(pattern, 0, false).tree;
        var matched := RegExec(regex, text, isWord, t);
        return Some(matched);
    }
  }
}
