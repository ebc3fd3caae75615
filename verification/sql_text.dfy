/**
 * Two readers of PostgreSQL statement text, independent of how a statement was
 * built: the positional parameters `$<n>` it uses, in order, and the
 * double-quoted identifiers it names, in order. They are used to state what
 * the partial-update builder puts into its text.
 */
module SqlText {
  import opened Decimal

  /** Length of the run of digits at the front of `s`. */
  function DigitRun(s: string): (k: nat)
    ensures k <= |s|
    ensures AllDigits(s[..k])
    ensures k < |s| ==> !IsDigit(s[k])
    decreases |s|
  {
    if |s| == 0 || !IsDigit(s[0]) then 0
    else
      var k := 1 + DigitRun(s[1..]);
      assert s[..k] == [s[0]] + s[1..][..k - 1];
      k
  }

  /** The numbers of the positional parameters `$<digits>` in `s`, left to right. */
  function Placeholders(s: string): seq<nat>
    decreases |s|
  {
    if |s| == 0 then []
    else if s[0] == '$' && DigitRun(s[1..]) > 0 then
      var k := DigitRun(s[1..]);
      assert s[1..1 + k] == s[1..][..k];
      [Parse(s[1..1 + k])] + Placeholders(s[1 + k..])
    else Placeholders(s[1..])
  }

  /** Length of the text before the first double quote of `s` (all of `s` if none). */
  function QuoteFree(s: string): (k: nat)
    ensures k <= |s|
    ensures '"' !in s[..k]
    ensures k < |s| ==> s[k] == '"'
    decreases |s|
  {
    if |s| == 0 || s[0] == '"' then 0
    else
      var k := 1 + QuoteFree(s[1..]);
      assert s[..k] == [s[0]] + s[1..][..k - 1];
      k
  }

  /** The double-quoted identifiers of `s`, left to right; an unterminated quote ends the scan. */
  function QuotedIdentifiers(s: string): seq<string>
    decreases |s|
  {
    if |s| == 0 then []
    else if s[0] == '"' then
      var k := QuoteFree(s[1..]);
      if k == |s| - 1 then [] else [s[1..1 + k]] + QuotedIdentifiers(s[2 + k..])
    else QuotedIdentifiers(s[1..])
  }

  /** Text without a dollar sign contributes no placeholder. */
  lemma {:induction false} PlaceholdersSkip(a: string, b: string)
    requires '$' !in a
    ensures Placeholders(a + b) == Placeholders(b)
    decreases |a|
  {
    if |a| > 0 {
      assert (a + b)[0] == a[0] && a[0] != '$';
      assert (a + b)[1..] == a[1..] + b;
      assert '$' !in a[1..] by {
        forall i | 0 <= i < |a[1..]| ensures a[1..][i] != '$' {
          assert a[1..][i] == a[i + 1];
        }
      }
      PlaceholdersSkip(a[1..], b);
      assert Placeholders(a + b) == Placeholders((a + b)[1..]);
    } else {
      assert a + b == b;
    }
  }

  lemma {:induction false} DigitRunOfNumeral(d: string, rest: string)
    requires AllDigits(d)
    requires |rest| == 0 || !IsDigit(rest[0])
    ensures DigitRun(d + rest) == |d|
    decreases |d|
  {
    if |d| == 0 {
      assert d + rest == rest;
    } else {
      assert (d + rest)[0] == d[0];
      assert (d + rest)[1..] == d[1..] + rest;
      DigitRunOfNumeral(d[1..], rest);
    }
  }

  /** A parameter `$<digits>` not followed by a digit reads back as the digits' value. */
  lemma PlaceholderAt(d: string, rest: string)
    requires |d| > 0 && AllDigits(d)
    requires |rest| == 0 || !IsDigit(rest[0])
    ensures Placeholders("$" + d + rest) == [Parse(d)] + Placeholders(rest)
  {
    var t := d + rest;
    var s := "$" + d + rest;
    var k := |d|;
    assert s == "$" + t;
    assert s[0] == '$' && s[1..] == t;
    DigitRunOfNumeral(d, rest);
    assert t[..k] == d && t[k..] == rest;
    assert s[1..1 + k] == d by { assert s[1..1 + k] == t[..k]; }
    assert s[1 + k..] == rest by { assert s[1 + k..] == t[k..]; }
  }

  /** Text without a double quote names no identifier. */
  lemma {:induction false} QuotedSkip(a: string, b: string)
    requires '"' !in a
    ensures QuotedIdentifiers(a + b) == QuotedIdentifiers(b)
    decreases |a|
  {
    if |a| > 0 {
      assert (a + b)[0] == a[0] && a[0] != '"';
      assert (a + b)[1..] == a[1..] + b;
      assert '"' !in a[1..] by {
        forall i | 0 <= i < |a[1..]| ensures a[1..][i] != '"' {
          assert a[1..][i] == a[i + 1];
        }
      }
      QuotedSkip(a[1..], b);
      assert QuotedIdentifiers(a + b) == QuotedIdentifiers((a + b)[1..]);
    } else {
      assert a + b == b;
    }
  }

  lemma {:induction false} QuoteFreeOf(c: string, rest: string)
    requires '"' !in c
    ensures QuoteFree(c + "\"" + rest) == |c|
    decreases |c|
  {
    if |c| == 0 {
      assert c + "\"" + rest == "\"" + rest;
    } else {
      assert (c + "\"" + rest)[0] == c[0];
      assert (c + "\"" + rest)[1..] == c[1..] + "\"" + rest;
      QuoteFreeOf(c[1..], rest);
    }
  }

  /** A quoted identifier `"<c>"` reads back as `c`. */
  lemma QuotedAt(c: string, rest: string)
    requires '"' !in c
    ensures QuotedIdentifiers("\"" + c + "\"" + rest) == [c] + QuotedIdentifiers(rest)
  {
    var s := "\"" + c + "\"" + rest;
    assert s[1..] == c + "\"" + rest;
    QuoteFreeOf(c, rest);
    assert s[1..1 + |c|] == c;
    assert s[2 + |c|..] == rest;
  }
}
