/**
 * Escaping of paragraph text for the DOCX body (src/utils/conversionUtils.ts:100-105).
 * The source applies five global `replace` calls in a row, `&` first; the five
 * replacements are the predefined entities of section 2.4 of the XML 1.0
 * specification.
 */
module XmlEscape {
  import opened Types

  /** The five characters XML reserves. */
  predicate IsReserved(c: char)
  {
    c == '&' || c == '<' || c == '>' || c == '"' || c == '\''
  }

  /** The text a single character becomes once escaped. */
  function Entity(c: char): (e: string)
    ensures IsReserved(c) ==> |e| >= 4 && e[0] == '&' && e[|e| - 1] == ';'
    ensures !IsReserved(c) ==> e == [c]
  {
    if c == '&' then "&amp;"
    else if c == '<' then "&lt;"
    else if c == '>' then "&gt;"
    else if c == '"' then "&quot;"
    else if c == '\'' then "&apos;"
    else [c]
  }

  /** `s.replace(/c/g, rep)`: every occurrence of `c`, left to right, becomes `rep`. */
  function ReplaceAll(s: string, c: char, rep: string): (r: string)
    ensures c !in rep ==> c !in r
    ensures forall x :: x in r ==> (x in s && x != c) || x in rep
  {
    if s == [] then []
    else (if s[0] == c then rep else [s[0]]) + ReplaceAll(s[1..], c, rep)
  }

  /** The chain of replacements exactly as the source writes it, `&` first. */
  function EscapeChain(s: string): (r: string)
    ensures '<' !in r && '>' !in r && '"' !in r && '\'' !in r
  {
    ReplaceAll(ReplaceAll(ReplaceAll(ReplaceAll(ReplaceAll(
      s, '&', "&amp;"), '<', "&lt;"), '>', "&gt;"), '"', "&quot;"), '\'', "&apos;")
  }

  /** Character-by-character escaping: each character becomes its `Entity`. */
  function EscapeText(s: string): (r: string)
    ensures |r| >= |s|
  {
    if s == [] then [] else Entity(s[0]) + EscapeText(s[1..])
  }

  /** Does one of the five entities start at index `i` of `s`? */
  predicate StartsEntity(s: string, i: int)
  {
    OccursAt(s, "&amp;", i) || OccursAt(s, "&lt;", i) || OccursAt(s, "&gt;", i)
    || OccursAt(s, "&quot;", i) || OccursAt(s, "&apos;", i)
  }

  /**
   * Text that is safe inside `<w:t>`: no raw `<`, `>`, `"` or `'`, and every `&`
   * begins one of the five entities.
   */
  predicate WellEscaped(s: string)
  {
    forall i :: 0 <= i < |s| ==>
      s[i] != '<' && s[i] != '>' && s[i] != '"' && s[i] != '\''
      && (s[i] == '&' ==> StartsEntity(s, i))
  }

  /** The character at the front of `s` and how many characters it occupies. */
  function DecodeFront(s: string): (d: (char, nat))
    requires s != []
    ensures 1 <= d.1 <= |s|
  {
    if OccursAt(s, "&amp;", 0) then ('&', 5)
    else if OccursAt(s, "&lt;", 0) then ('<', 4)
    else if OccursAt(s, "&gt;", 0) then ('>', 4)
    else if OccursAt(s, "&quot;", 0) then ('"', 6)
    else if OccursAt(s, "&apos;", 0) then ('\'', 6)
    else (s[0], 1)
  }

  /** Reverses `EscapeText`: the five entities become their characters again. */
  function Unescape(s: string): string
    decreases |s|
  {
    if s == [] then []
    else
      var d := DecodeFront(s);
      [d.0] + Unescape(s[d.1..])
  }

  lemma {:induction false} ReplaceAllAppend(a: string, b: string, c: char, rep: string)
    ensures ReplaceAll(a + b, c, rep) == ReplaceAll(a, c, rep) + ReplaceAll(b, c, rep)
  {
    if a == [] {
      assert a + b == b;
    } else {
      assert a + b == [a[0]] + (a[1..] + b);
      ReplaceAllAppend(a[1..], b, c, rep);
    }
  }

  lemma {:induction false} ReplaceAllAbsent(s: string, c: char, rep: string)
    requires c !in s
    ensures ReplaceAll(s, c, rep) == s
  {
    if s != [] {
      ReplaceAllAbsent(s[1..], c, rep);
    }
  }

  lemma ReplaceAllSingle(x: char, c: char, rep: string)
    ensures ReplaceAll([x], c, rep) == if x == c then rep else [x]
  {
    assert [x][1..] == [];
  }

  /** The remaining steps of the chain, starting after the `&` step. */
  function ChainAfterAmp(s: string): string
  {
    ReplaceAll(ReplaceAll(ReplaceAll(ReplaceAll(
      s, '<', "&lt;"), '>', "&gt;"), '"', "&quot;"), '\'', "&apos;")
  }

  lemma ChainAfterAmpUntouched(s: string)
    requires '<' !in s && '>' !in s && '"' !in s && '\'' !in s
    ensures ChainAfterAmp(s) == s
  {
    ReplaceAllAbsent(s, '<', "&lt;");
    ReplaceAllAbsent(s, '>', "&gt;");
    ReplaceAllAbsent(s, '"', "&quot;");
    ReplaceAllAbsent(s, '\'', "&apos;");
  }

  /** The chain of five replacements turns one character into its entity. */
  lemma EscapeChainChar(x: char)
    ensures EscapeChain([x]) == Entity(x)
  {
    ReplaceAllSingle(x, '&', "&amp;");
    if x == '&' {
      ChainAfterAmpUntouched("&amp;");
    } else {
      ChainAfterAmpChar(x);
    }
  }

  lemma ChainAfterAmpChar(x: char)
    requires x != '&'
    ensures ChainAfterAmp([x]) == Entity(x)
  {
    ReplaceAllSingle(x, '<', "&lt;");
    if x == '<' {
      ChainAfterLt("&lt;");
    } else {
      ChainAfterLtChar(x);
    }
  }

  lemma ChainAfterLt(s: string)
    requires '>' !in s && '"' !in s && '\'' !in s
    ensures ReplaceAll(ReplaceAll(ReplaceAll(s, '>', "&gt;"), '"', "&quot;"), '\'', "&apos;") == s
  {
    ReplaceAllAbsent(s, '>', "&gt;");
    ReplaceAllAbsent(s, '"', "&quot;");
    ReplaceAllAbsent(s, '\'', "&apos;");
  }

  lemma ChainAfterLtChar(x: char)
    requires x != '&' && x != '<'
    ensures ReplaceAll(ReplaceAll(ReplaceAll([x], '>', "&gt;"), '"', "&quot;"), '\'', "&apos;") == Entity(x)
  {
    ReplaceAllSingle(x, '>', "&gt;");
    if x == '>' {
      ReplaceAllAbsent("&gt;", '"', "&quot;");
      ReplaceAllAbsent("&gt;", '\'', "&apos;");
    } else {
      ReplaceAllSingle(x, '"', "&quot;");
      if x == '"' {
        ReplaceAllAbsent("&quot;", '\'', "&apos;");
      } else {
        ReplaceAllSingle(x, '\'', "&apos;");
      }
    }
  }

  /**
   * Because `&` is replaced first, the chained replacements escape each character
   * independently: no entity produced by one step is rewritten by a later one.
   */
  lemma {:induction false} EscapeChainIsPerCharacter(s: string)
    ensures EscapeChain(s) == EscapeText(s)
  {
    if s != [] {
      var t := s[1..];
      assert s == [s[0]] + t;
      var a0, b0 := [s[0]], t;
      ReplaceAllAppend(a0, b0, '&', "&amp;");
      var a1, b1 := ReplaceAll(a0, '&', "&amp;"), ReplaceAll(b0, '&', "&amp;");
      ReplaceAllAppend(a1, b1, '<', "&lt;");
      var a2, b2 := ReplaceAll(a1, '<', "&lt;"), ReplaceAll(b1, '<', "&lt;");
      ReplaceAllAppend(a2, b2, '>', "&gt;");
      var a3, b3 := ReplaceAll(a2, '>', "&gt;"), ReplaceAll(b2, '>', "&gt;");
      ReplaceAllAppend(a3, b3, '"', "&quot;");
      var a4, b4 := ReplaceAll(a3, '"', "&quot;"), ReplaceAll(b3, '"', "&quot;");
      ReplaceAllAppend(a4, b4, '\'', "&apos;");
      assert EscapeChain(s) == EscapeChain([s[0]]) + EscapeChain(t);
      EscapeChainChar(s[0]);
      EscapeChainIsPerCharacter(t);
    }
  }

  lemma {:induction false} EscapeTextAppend(a: string, b: string)
    ensures EscapeText(a + b) == EscapeText(a) + EscapeText(b)
  {
    if a == [] {
      assert a + b == b;
    } else {
      assert a + b == [a[0]] + (a[1..] + b);
      EscapeTextAppend(a[1..], b);
    }
  }

  /** Only the five reserved characters are altered: text without them is unchanged. */
  lemma {:induction false} EscapeKeepsOrdinaryText(s: string)
    requires forall i :: 0 <= i < |s| ==> !IsReserved(s[i])
    ensures EscapeText(s) == s
  {
    if s != [] {
      EscapeKeepsOrdinaryText(s[1..]);
    }
  }

  lemma PrefixOccurs(p: string, t: string)
    ensures OccursAt(p + t, p, 0)
  {
    assert (p + t)[..|p|] == p;
  }

  lemma DecodeFrontEntity(c: char, t: string)
    ensures DecodeFront(Entity(c) + t) == (c, |Entity(c)|)
  {
    var s := Entity(c) + t;
    PrefixOccurs(Entity(c), t);
    if c == '&' {
    } else if c == '<' {
      assert s[1] == 'l';
      assert !OccursAt(s, "&amp;", 0) by { assert "&amp;"[1] == 'a'; }
    } else if c == '>' {
      assert s[1] == 'g';
      assert !OccursAt(s, "&amp;", 0) by { assert "&amp;"[1] == 'a'; }
      assert !OccursAt(s, "&lt;", 0) by { assert "&lt;"[1] == 'l'; }
    } else if c == '"' {
      assert s[1] == 'q';
      assert !OccursAt(s, "&amp;", 0) by { assert "&amp;"[1] == 'a'; }
      assert !OccursAt(s, "&lt;", 0) by { assert "&lt;"[1] == 'l'; }
      assert !OccursAt(s, "&gt;", 0) by { assert "&gt;"[1] == 'g'; }
    } else if c == '\'' {
      assert s[1] == 'a' && s[2] == 'p';
      assert !OccursAt(s, "&amp;", 0) by { assert "&amp;"[2] == 'm'; }
      assert !OccursAt(s, "&lt;", 0) by { assert "&lt;"[1] == 'l'; }
      assert !OccursAt(s, "&gt;", 0) by { assert "&gt;"[1] == 'g'; }
      assert !OccursAt(s, "&quot;", 0) by { assert "&quot;"[1] == 'q'; }
    } else {
      assert s[0] == c;
    }
  }

  lemma UnescapeEntity(c: char, t: string)
    ensures Unescape(Entity(c) + t) == [c] + Unescape(t)
  {
    var s := Entity(c) + t;
    DecodeFrontEntity(c, t);
    assert s[|Entity(c)|..] == t;
  }

  /** Unescaping gives back the original text. */
  lemma {:induction false} UnescapeEscape(s: string)
    ensures Unescape(EscapeText(s)) == s
  {
    if s != [] {
      UnescapeEntity(s[0], EscapeText(s[1..]));
      UnescapeEscape(s[1..]);
      assert s == [s[0]] + s[1..];
    }
  }

  lemma WellEscapedEntity(c: char)
    ensures WellEscaped(Entity(c))
  {
    var e := Entity(c);
    if IsReserved(c) {
      assert OccursAt(e, e, 0);
      forall i | 0 <= i < |e|
        ensures e[i] != '<' && e[i] != '>' && e[i] != '"' && e[i] != '\''
        ensures e[i] == '&' ==> StartsEntity(e, i)
      {
      }
    }
  }

  lemma WellEscapedAppend(a: string, b: string)
    requires WellEscaped(a) && WellEscaped(b)
    ensures WellEscaped(a + b)
  {
    var s := a + b;
    forall i | 0 <= i < |s|
      ensures s[i] != '<' && s[i] != '>' && s[i] != '"' && s[i] != '\''
      ensures s[i] == '&' ==> StartsEntity(s, i)
    {
      if i < |a| {
        assert s[i] == a[i];
        if a[i] == '&' {
          assert StartsEntity(a, i);
          OccursAtExtend(a, b, i);
        }
      } else {
        assert s[i] == b[i - |a|];
        if s[i] == '&' {
          assert StartsEntity(b, i - |a|);
          OccursAtShift(a, b, i - |a|);
        }
      }
    }
  }

  lemma OccursAtExtend(a: string, b: string, i: int)
    ensures forall n :: OccursAt(a, n, i) ==> OccursAt(a + b, n, i)
  {
    forall n | OccursAt(a, n, i) ensures OccursAt(a + b, n, i) {
      assert (a + b)[i..i + |n|] == a[i..i + |n|];
    }
  }

  lemma OccursAtShift(a: string, b: string, i: int)
    ensures forall n :: OccursAt(b, n, i) ==> OccursAt(a + b, n, i + |a|)
  {
    forall n | OccursAt(b, n, i) ensures OccursAt(a + b, n, i + |a|) {
      assert (a + b)[i + |a|..i + |a| + |n|] == b[i..i + |n|];
    }
  }

  /** Escaped text never holds a raw `<`, `>`, `"` or `'`, and every `&` starts an entity. */
  lemma {:induction false} EscapeTextWellEscaped(s: string)
    ensures WellEscaped(EscapeText(s))
  {
    if s != [] {
      WellEscapedEntity(s[0]);
      EscapeTextWellEscaped(s[1..]);
      WellEscapedAppend(Entity(s[0]), EscapeText(s[1..]));
    }
  }
}
