/**
 * Character and string helpers shared by the SMS importer, the receipt scanner,
 * the CSV exporter and the dashboards. Letters and digits are the ASCII ones;
 * blanks and line terminators are Foundation's Unicode sets.
 */
module Text {
  import opened Wrappers

  // ---------------------------------------------------------------------------
  // Character classes
  // ---------------------------------------------------------------------------

  predicate IsDigit(c: char) { '0' <= c <= '9' }

  predicate IsUpper(c: char) { 'A' <= c <= 'Z' }

  predicate IsLower(c: char) { 'a' <= c <= 'z' }

  /** Foundation's `.whitespaces`: the tab and the space separators (Unicode category Zs). */
  predicate IsBlank(c: char) {
    || c == ' ' || c == '\t' || c == '\U{00A0}' || c == '\U{1680}'
    || ('\U{2000}' <= c <= '\U{200A}') || c == '\U{202F}' || c == '\U{205F}' || c == '\U{3000}'
  }

  /** Foundation's `.newlines`: U+000A to U+000D, U+0085, U+2028 and U+2029. */
  predicate IsNewline(c: char) {
    c == '\n' || c == '\r' || c == '\U{000B}' || c == '\U{000C}'
    || c == '\U{0085}' || c == '\U{2028}' || c == '\U{2029}'
  }

  /** Foundation's `.whitespacesAndNewlines`. */
  predicate IsSpaceOrNewline(c: char) { IsBlank(c) || IsNewline(c) }

  function ToLower(c: char): (r: char)
    ensures IsUpper(c) ==> IsLower(r) && r as int == c as int + 32
    ensures !IsUpper(c) ==> r == c
  {
    if IsUpper(c) then (c as int + 32) as char else c
  }

  function ToUpper(c: char): (r: char)
    ensures IsLower(c) ==> IsUpper(r) && r as int == c as int - 32
    ensures !IsLower(c) ==> r == c
  {
    if IsLower(c) then (c as int - 32) as char else c
  }

  /** `String.lowercased()`, on the ASCII letters. */
  function Lowercased(s: string): (r: string)
    ensures |r| == |s|
    ensures forall i :: 0 <= i < |s| ==> r[i] == ToLower(s[i])
  {
    if s == [] then [] else [ToLower(s[0])] + Lowercased(s[1..])
  }

  // ---------------------------------------------------------------------------
  // Substring search
  // ---------------------------------------------------------------------------

  /** `pat` occurs in `s` at position `i`. */
  predicate OccursAt(s: string, pat: string, i: int) {
    0 <= i && i + |pat| <= |s| && s[i..i + |pat|] == pat
  }

  /** `String.contains(_:)` for a literal pattern. */
  function Contains(s: string, pat: string): (r: bool)
    ensures r <==> exists i :: OccursAt(s, pat, i)
    decreases |s|
  {
    if |pat| > |s| then
      assert forall i :: !OccursAt(s, pat, i);
      false
    else if s[..|pat|] == pat then
      assert OccursAt(s, pat, 0);
      true
    else
      var rest := Contains(s[1..], pat);
      assert forall i :: OccursAt(s, pat, i) && i > 0 ==> OccursAt(s[1..], pat, i - 1) by {
        forall i | OccursAt(s, pat, i) && i > 0 ensures OccursAt(s[1..], pat, i - 1) {
          assert s[1..][i - 1..i - 1 + |pat|] == s[i..i + |pat|];
        }
      }
      assert forall i :: OccursAt(s[1..], pat, i) ==> OccursAt(s, pat, i + 1) by {
        forall i | OccursAt(s[1..], pat, i) ensures OccursAt(s, pat, i + 1) {
          assert s[1..][i..i + |pat|] == s[i + 1..i + 1 + |pat|];
        }
      }
      rest
  }

  // ---------------------------------------------------------------------------
  // Trimming and capitalisation
  // ---------------------------------------------------------------------------

  /** Every character of `s` is one that `drop` selects. */
  predicate AllDropped(s: string, drop: char -> bool) {
    forall k :: 0 <= k < |s| ==> drop(s[k])
  }

  /** `r` is `s` with a prefix and a suffix of dropped characters cut off. */
  ghost predicate IsTrimmedSlice(s: string, r: string, drop: char -> bool) {
    exists i, j :: 0 <= i <= j <= |s| && r == s[i..j] && AllDropped(s[..i], drop) && AllDropped(s[j..], drop)
  }

  /** `trimmingCharacters(in:)` for the set of characters `drop` selects. */
  function Trim(s: string, drop: char -> bool): (r: string)
    ensures IsTrimmedSlice(s, r, drop)
    ensures r != [] ==> !drop(r[0]) && !drop(r[|r| - 1])
  {
    var i := LeadingDropped(s, drop);
    var j := KeptLength(s[i..], drop);
    assert s[i..][j..] == s[i + j..];
    s[i..][..j]
  }

  /** Length of the longest prefix of `s` made of dropped characters. */
  function LeadingDropped(s: string, drop: char -> bool): (n: nat)
    ensures n <= |s| && AllDropped(s[..n], drop)
    ensures n < |s| ==> !drop(s[n])
  {
    if s != [] && drop(s[0]) then
      var n := LeadingDropped(s[1..], drop);
      assert s[..n + 1] == [s[0]] + s[1..][..n];
      n + 1
    else 0
  }

  /** Length of `s` without its longest suffix of dropped characters. */
  function KeptLength(s: string, drop: char -> bool): (n: nat)
    ensures n <= |s| && AllDropped(s[n..], drop)
    ensures n > 0 ==> !drop(s[n - 1])
  {
    if s != [] && drop(s[|s| - 1]) then
      var n := KeptLength(s[..|s| - 1], drop);
      assert s[n..] == s[..|s| - 1][n..] + [s[|s| - 1]];
      n
    else |s|
  }

  /** A cased character: an (ASCII) letter. */
  predicate IsCased(c: char) { IsUpper(c) || IsLower(c) }

  /**
   * The ASCII characters of Unicode's Case_Ignorable property: the apostrophe,
   * the full stop and the colon (word-internal punctuation) and the modifier
   * symbols `^` and `` ` ``.
   */
  predicate IsCaseIgnorable(c: char) {
    c == '\'' || c == '.' || c == ':' || c == '^' || c == '`'
  }

  /**
   * Whether the character after `c` starts a word, given whether `c` itself did:
   * a case-ignorable character passes the state on; otherwise a word starts after
   * anything that is not a letter (a blank, a digit, a hyphen, ...).
   */
  function AfterChar(atWordStart: bool, c: char): bool {
    if IsCaseIgnorable(c) then atWordStart else !IsCased(c)
  }

  /** Whether position `i` of `s` starts a word, when position 0 does exactly if `start`. */
  function WordStartAt(s: string, i: nat, start: bool): bool
    requires i <= |s|
  {
    if i == 0 then start else AfterChar(WordStartAt(s, i - 1, start), s[i - 1])
  }

  /**
   * `String.capitalized`: every letter upper-cased where a word starts and
   * lower-cased elsewhere. A letter is lower-cased exactly when the nearest
   * character before it that is not case-ignorable is a letter.
   */
  function Capitalized(s: string): (r: string)
    ensures |r| == |s|
    ensures forall i :: 0 <= i < |s| ==> r[i] == CapitalizedAt(s, i)
    ensures |s| > 0 ==> r[0] == ToUpper(s[0])
    ensures forall i :: 0 < i < |s| && IsCased(s[i - 1]) ==> r[i] == ToLower(s[i])
    ensures forall i :: 0 < i < |s| && !IsCased(s[i - 1]) && !IsCaseIgnorable(s[i - 1]) ==> r[i] == ToUpper(s[i])
    ensures forall i :: 0 <= i < |s| && !IsCased(s[i]) ==> r[i] == s[i]
  {
    CapitalizedFrom(s, true)
  }

  /** Character `i` of `s` once capitalised: upper case at a word start, else lower case. */
  function CapitalizedAt(s: string, i: nat): char
    requires i < |s|
  {
    if WordStartAt(s, i, true) then ToUpper(s[i]) else ToLower(s[i])
  }

  function CapitalizedFrom(s: string, atWordStart: bool): (r: string)
    ensures |r| == |s|
    ensures forall i :: 0 <= i < |s| ==>
      r[i] == if WordStartAt(s, i, atWordStart) then ToUpper(s[i]) else ToLower(s[i])
  {
    if s == [] then []
    else
      var c := if atWordStart then ToUpper(s[0]) else ToLower(s[0]);
      var rest := CapitalizedFrom(s[1..], AfterChar(atWordStart, s[0]));
      CapitalizedCons(s, atWordStart, c, rest);
      [c] + rest
  }

  lemma CapitalizedCons(s: string, start: bool, c: char, rest: string)
    requires s != [] && c == if start then ToUpper(s[0]) else ToLower(s[0])
    requires |rest| == |s| - 1
    requires forall j :: 0 <= j < |rest| ==>
      rest[j] == if WordStartAt(s[1..], j, AfterChar(start, s[0])) then ToUpper(s[1..][j]) else ToLower(s[1..][j])
    ensures forall i :: 0 <= i < |s| ==>
      ([c] + rest)[i] == if WordStartAt(s, i, start) then ToUpper(s[i]) else ToLower(s[i])
  {
    forall i | 0 <= i < |s|
      ensures ([c] + rest)[i] == if WordStartAt(s, i, start) then ToUpper(s[i]) else ToLower(s[i])
    {
      if i > 0 {
        WordStartShiftAt(s, start, i);
        assert ([c] + rest)[i] == rest[i - 1] && s[1..][i - 1] == s[i];
      }
    }
  }

  lemma {:induction false} WordStartShiftAt(s: string, start: bool, i: nat)
    requires 1 <= i <= |s|
    ensures WordStartAt(s, i, start) == WordStartAt(s[1..], i - 1, AfterChar(start, s[0]))
  {
    if i > 1 {
      WordStartShiftAt(s, start, i - 1);
      assert s[1..][i - 2] == s[i - 1];
    }
  }

  /** "24HR" capitalises to "24Hr": a digit ends a word, so the letter after it starts one. */
  lemma CapitalizedAfterDigit()
    ensures Capitalized("24HR") == "24Hr"
  {
    var r := Capitalized("24HR");
    assert r[0] == '2' && r[1] == '4' && r[2] == 'H' && r[3] == 'r';
  }

  /** Capitalising twice changes nothing more than capitalising once. */
  lemma CapitalizedIdempotent(s: string)
    ensures Capitalized(Capitalized(s)) == Capitalized(s)
  {
    var c := Capitalized(s);
    forall i | 0 <= i < |s| ensures Capitalized(c)[i] == c[i] {
      WordStartStable(s, c, i);
    }
  }

  /** Capitalising changes no character's class, so it keeps every word start. */
  lemma {:induction false} WordStartStable(s: string, c: string, i: nat)
    requires c == Capitalized(s) && i <= |s|
    ensures WordStartAt(c, i, true) == WordStartAt(s, i, true)
  {
    if i > 0 {
      WordStartStable(s, c, i - 1);
      assert c[i - 1] == CapitalizedAt(s, i - 1);
    }
  }

  // ---------------------------------------------------------------------------
  // Joining and splitting on one separator character
  // ---------------------------------------------------------------------------

  /** `[String].joined(separator:)` with a one-character separator. */
  function Join(fields: seq<string>, sep: char): (r: string)
    ensures fields == [] ==> r == ""
    ensures |fields| == 1 ==> r == fields[0]
  {
    if fields == [] then ""
    else if |fields| == 1 then fields[0]
    else fields[0] + [sep] + Join(fields[1..], sep)
  }

  /** Number of occurrences of `c` in `s`. */
  function CountChar(s: string, c: char): (n: nat)
    ensures n <= |s|
    ensures n == 0 <==> c !in s
  {
    if s == [] then 0 else (if s[0] == c then 1 else 0) + CountChar(s[1..], c)
  }

  lemma {:induction false} CountCharAppend(a: string, b: string, c: char)
    ensures CountChar(a + b, c) == CountChar(a, c) + CountChar(b, c)
  {
    if a == [] {
      assert a + b == b;
    } else {
      assert (a + b)[1..] == a[1..] + b;
      CountCharAppend(a[1..], b, c);
    }
  }

  /** Total separator count of a list of fields. */
  function CountInFields(fields: seq<string>, c: char): nat {
    if fields == [] then 0 else CountChar(fields[0], c) + CountInFields(fields[1..], c)
  }

  /**
   * Joining `n` fields adds exactly `n - 1` separators to those the fields already
   * contain, so the text reads back as `n` fields only when no field holds one.
   */
  lemma {:induction false} JoinSeparatorCount(fields: seq<string>, sep: char)
    requires fields != []
    ensures CountChar(Join(fields, sep), sep) == CountInFields(fields, sep) + |fields| - 1
  {
    if |fields| == 1 {
      assert CountInFields(fields[1..], sep) == 0;
    } else {
      JoinSeparatorCount(fields[1..], sep);
      CountCharAppend(fields[0] + [sep], Join(fields[1..], sep), sep);
      CountCharAppend(fields[0], [sep], sep);
      assert CountChar([sep], sep) == 1 by {
        assert [sep][1..] == [];
      }
    }
  }

  /** Splits `s` at every occurrence of `sep` (`components(separatedBy:)`). */
  function Split(s: string, sep: char): (r: seq<string>)
    ensures |r| >= 1
    ensures forall k :: 0 <= k < |r| ==> sep !in r[k]
    decreases |s|
  {
    SplitFrom(s, sep, "")
  }

  /** Splitting with `acc` already collected as the start of the current field. */
  function SplitFrom(s: string, sep: char, acc: string): (r: seq<string>)
    requires sep !in acc
    ensures |r| >= 1
    ensures forall k :: 0 <= k < |r| ==> sep !in r[k]
    decreases |s|
  {
    if s == [] then [acc]
    else if s[0] == sep then [acc] + SplitFrom(s[1..], sep, "")
    else SplitFrom(s[1..], sep, acc + [s[0]])
  }

  lemma {:induction false} SplitFromNoSep(s: string, sep: char, acc: string)
    requires sep !in acc && sep !in s
    ensures SplitFrom(s, sep, acc) == [acc + s]
    decreases |s|
  {
    if s == [] {
      assert acc + s == acc;
    } else {
      SplitFromNoSep(s[1..], sep, acc + [s[0]]);
      assert acc + [s[0]] + s[1..] == acc + s;
    }
  }

  lemma {:induction false} SplitFromAppend(a: string, b: string, sep: char, acc: string)
    requires sep !in acc && sep !in a
    ensures SplitFrom(a + [sep] + b, sep, acc) == [acc + a] + SplitFrom(b, sep, "")
    decreases |a|
  {
    if a == [] {
      assert a + [sep] + b == [sep] + b;
      assert ([sep] + b)[1..] == b;
      assert acc + a == acc;
    } else {
      assert (a + [sep] + b)[1..] == a[1..] + [sep] + b;
      SplitFromAppend(a[1..], b, sep, acc + [a[0]]);
      assert acc + [a[0]] + a[1..] == acc + a;
    }
  }

  /** Splitting undoes joining, provided no field contains the separator. */
  lemma {:induction false} SplitJoin(fields: seq<string>, sep: char)
    requires fields != []
    requires forall k :: 0 <= k < |fields| ==> sep !in fields[k]
    ensures Split(Join(fields, sep), sep) == fields
  {
    if |fields| == 1 {
      SplitFromNoSep(fields[0], sep, "");
      assert "" + fields[0] == fields[0];
    } else {
      SplitJoin(fields[1..], sep);
      SplitFromAppend(fields[0], Join(fields[1..], sep), sep, "");
      assert "" + fields[0] == fields[0];
      assert fields == [fields[0]] + fields[1..];
    }
  }

  /** Splitting yields one more component than there are separators. */
  lemma {:induction false} SplitFromCount(s: string, sep: char, acc: string)
    requires sep !in acc
    ensures |SplitFrom(s, sep, acc)| == CountChar(s, sep) + 1
    decreases |s|
  {
    if s != [] {
      if s[0] == sep {
        SplitFromCount(s[1..], sep, "");
      } else {
        SplitFromCount(s[1..], sep, acc + [s[0]]);
      }
    }
  }

  lemma SplitCount(s: string, sep: char)
    ensures |Split(s, sep)| == CountChar(s, sep) + 1
  {
    SplitFromCount(s, sep, "");
  }

  /** No field holds `c` exactly when the fields hold no `c` in total. */
  lemma {:induction false} CountInFieldsZero(fields: seq<string>, c: char)
    ensures CountInFields(fields, c) == 0 <==> forall k :: 0 <= k < |fields| ==> c !in fields[k]
  {
    if fields != [] {
      CountInFieldsZero(fields[1..], c);
      if CountInFields(fields, c) == 0 {
        forall k | 0 <= k < |fields| ensures c !in fields[k] {
          if k > 0 {
            assert fields[k] == fields[1..][k - 1];
          }
        }
      } else if CountChar(fields[0], c) == 0 {
        var k :| 0 <= k < |fields[1..]| && c in fields[1..][k];
        assert c in fields[k + 1];
      }
    }
  }

  /**
   * `components(separatedBy: .newlines)`: every line terminator character ends a
   * component, so "\r\n" yields an empty component between the two.
   */
  function Lines(s: string): (r: seq<string>)
    ensures |r| >= 1
    ensures forall k :: 0 <= k < |r| ==> forall c :: c in r[k] ==> !IsNewline(c)
    ensures r == Split(NewlinesNormalized(s), '\n')
    ensures |r| == CountChar(NewlinesNormalized(s), '\n') + 1
    ensures Join(r, '\n') == NewlinesNormalized(s)
  {
    LinesFromIsSplit(s, "");
    SplitFromCount(NewlinesNormalized(s), '\n', "");
    JoinSplitFrom(NewlinesNormalized(s), '\n', "");
    LinesFrom(s, "")
  }

  /** `s` with every line terminator written as "\n". */
  function NewlinesNormalized(s: string): (r: string)
    ensures |r| == |s|
    ensures forall i :: 0 <= i < |s| ==> r[i] == if IsNewline(s[i]) then '\n' else s[i]
  {
    if s == [] then "" else [if IsNewline(s[0]) then '\n' else s[0]] + NewlinesNormalized(s[1..])
  }

  lemma {:induction false} LinesFromIsSplit(s: string, acc: string)
    requires forall c :: c in acc ==> !IsNewline(c)
    ensures LinesFrom(s, acc) == SplitFrom(NewlinesNormalized(s), '\n', acc)
    decreases |s|
  {
    if s != [] {
      var n := NewlinesNormalized(s);
      assert n[1..] == NewlinesNormalized(s[1..]);
      if IsNewline(s[0]) {
        LinesFromIsSplit(s[1..], "");
      } else {
        LinesFromIsSplit(s[1..], acc + [s[0]]);
      }
    }
  }

  /** Joining the components of a split gives the text back. */
  lemma {:induction false} JoinSplitFrom(t: string, sep: char, acc: string)
    requires sep !in acc
    ensures Join(SplitFrom(t, sep, acc), sep) == acc + t
    decreases |t|
  {
    if t == [] {
      assert acc + t == acc;
    } else if t[0] == sep {
      var rest := SplitFrom(t[1..], sep, "");
      JoinSplitFrom(t[1..], sep, "");
      var fields := [acc] + rest;
      assert fields[0] == acc && fields[1..] == rest;
      assert "" + t[1..] == t[1..];
      assert acc + [sep] + t[1..] == acc + t;
    } else {
      JoinSplitFrom(t[1..], sep, acc + [t[0]]);
      assert acc + [t[0]] + t[1..] == acc + t;
    }
  }

  /** Text whose only line terminator is "\n": its lines are its "\n"-components, and joining them restores it. */
  lemma LinesOfUnixText(s: string)
    requires forall i :: 0 <= i < |s| && IsNewline(s[i]) ==> s[i] == '\n'
    ensures Lines(s) == Split(s, '\n')
    ensures Join(Lines(s), '\n') == s
  {
    assert NewlinesNormalized(s) == s;
  }

  function LinesFrom(s: string, acc: string): (r: seq<string>)
    requires forall c :: c in acc ==> !IsNewline(c)
    ensures |r| >= 1
    ensures forall k :: 0 <= k < |r| ==> forall c :: c in r[k] ==> !IsNewline(c)
    decreases |s|
  {
    if s == [] then [acc]
    else if IsNewline(s[0]) then [acc] + LinesFrom(s[1..], "")
    else LinesFrom(s[1..], acc + [s[0]])
  }

  // ---------------------------------------------------------------------------
  // Removing a character, ordering strings
  // ---------------------------------------------------------------------------

  /** `replacingOccurrences(of:with: "")` for a one-character pattern. */
  function Remove(s: string, c: char): (r: string)
    ensures c !in r
    ensures |r| <= |s|
  {
    if s == [] then [] else (if s[0] == c then [] else [s[0]]) + Remove(s[1..], c)
  }

  /** Removal keeps every other character, in order, and only those. */
  lemma {:induction false} RemoveKeeps(s: string, c: char)
    ensures |Remove(s, c)| == |s| - CountChar(s, c)
    ensures forall x :: x in Remove(s, c) <==> x in s && x != c
  {
    if s != [] {
      RemoveKeeps(s[1..], c);
      assert s == [s[0]] + s[1..];
    }
  }

  lemma {:induction false} RemoveAbsent(s: string, c: char)
    requires c !in s
    ensures Remove(s, c) == s
  {
    if s != [] {
      RemoveAbsent(s[1..], c);
    }
  }

  lemma {:induction false} RemoveAppend(a: string, b: string, c: char)
    ensures Remove(a + b, c) == Remove(a, c) + Remove(b, c)
  {
    if a == [] {
      assert a + b == b;
    } else {
      var h := if a[0] == c then [] else [a[0]];
      assert (a + b)[0] == a[0] && (a + b)[1..] == a[1..] + b;
      RemoveAppend(a[1..], b, c);
      assert Remove(a + b, c) == h + Remove(a[1..] + b, c);
      assert Remove(a, c) == h + Remove(a[1..], c);
    }
  }

  /** Removing `c` erases an occurrence of `c` between two pieces. */
  lemma RemoveBetween(a: string, b: string, c: char)
    ensures Remove(a + [c] + b, c) == Remove(a + b, c)
  {
    var ac := a + [c];
    RemoveAppend(ac, b, c);
    RemoveAppend(a, [c], c);
    RemoveAppend(a, b, c);
    assert Remove([c], c) == [];
    assert Remove(ac, c) == Remove(a, c);
  }

  /** Lexicographic order on code points (Swift's `<` on these ASCII raw values). */
  predicate LexLess(a: string, b: string) {
    if a == [] then b != []
    else if b == [] then false
    else if a[0] != b[0] then a[0] < b[0]
    else LexLess(a[1..], b[1..])
  }

  lemma {:induction false} LexLessIrreflexive(a: string)
    ensures !LexLess(a, a)
  {
    if a != [] {
      LexLessIrreflexive(a[1..]);
    }
  }

  lemma {:induction false} LexLessTransitive(a: string, b: string, c: string)
    requires LexLess(a, b) && LexLess(b, c)
    ensures LexLess(a, c)
  {
    if a != [] && b != [] && c != [] && a[0] == b[0] && b[0] == c[0] {
      LexLessTransitive(a[1..], b[1..], c[1..]);
    }
  }

  lemma {:induction false} LexLessAsymmetric(a: string, b: string)
    requires LexLess(a, b)
    ensures !LexLess(b, a)
  {
    if a != [] && b != [] && a[0] == b[0] {
      LexLessAsymmetric(a[1..], b[1..]);
    }
  }

  /** A list whose neighbours are in increasing order is in increasing order throughout. */
  lemma {:induction false} LexLessChain(names: seq<string>)
    requires forall i :: 0 <= i < |names| - 1 ==> LexLess(names[i], names[i + 1])
    ensures forall i, j :: 0 <= i < j < |names| ==> LexLess(names[i], names[j])
  {
    if |names| > 1 {
      var tail := names[1..];
      forall i | 0 <= i < |tail| - 1 ensures LexLess(tail[i], tail[i + 1]) {
        assert tail[i] == names[i + 1] && tail[i + 1] == names[i + 2];
      }
      LexLessChain(tail);
      forall i, j | 0 <= i < j < |names| ensures LexLess(names[i], names[j]) {
        if i > 0 {
          assert names[i] == tail[i - 1] && names[j] == tail[j - 1];
        } else if j > 1 {
          assert names[1] == tail[0] && names[j] == tail[j - 1];
          LexLessTransitive(names[0], names[1], names[j]);
        }
      }
    }
  }

  // ---------------------------------------------------------------------------
  // Numbers written in decimal
  // ---------------------------------------------------------------------------

  predicate AllDigits(s: string) { forall i :: 0 <= i < |s| ==> IsDigit(s[i]) }

  function Pow10(n: nat): (r: nat)
    ensures r >= 1
  {
    if n == 0 then 1 else 10 * Pow10(n - 1)
  }

  /** The value of a run of decimal digits, read most significant first. */
  function DigitsValue(s: string): (r: nat)
    requires AllDigits(s)
    ensures r < Pow10(|s|)
  {
    if s == [] then 0
    else DigitsValue(s[..|s| - 1]) * 10 + (s[|s| - 1] as int - '0' as int)
  }

  /**
   * `Double(_: String)` on the plain decimal forms: digits with at most one point
   * and at least one digit ("12", "12.5", ".50", "12."). Anything else fails.
   */
  function ParseDecimal(s: string): (r: Option<real>)
    ensures r.Some? ==> r.value >= 0.0
    ensures r.Some? <==> s != [] && (AllDigits(s) || exists p: nat :: PointedDecimal(s, p))
    ensures r.Some? && '.' !in s ==> AllDigits(s) && r.value == DigitsValue(s) as real
    ensures forall p: nat :: PointedDecimal(s, p) ==> r == Some(PointedValue(s, p))
  {
    PointedAtPointIndex(s);
    if s == [] then None
    else if AllDigits(s) then Some(DigitsValue(s) as real)
    else
      var p := PointIndex(s);
      if p == |s| then None
      else
        var whole, frac := s[..p], s[p + 1..];
        if AllDigits(whole) && AllDigits(frac) && |whole| + |frac| > 0 then
          assert PointedDecimal(s, p);
          Some(DigitsValue(whole) as real + DigitsValue(frac) as real / Pow10(|frac|) as real)
        else None
  }

  /** `s` is digits, a point at `p`, then digits, with at least one digit in all. */
  predicate PointedDecimal(s: string, p: nat) {
    p < |s| && s[p] == '.' && AllDigits(s[..p]) && AllDigits(s[p + 1..]) && |s| > 1
  }

  /** The value of such a text: the whole digits plus the fraction digits over a power of ten. */
  function PointedValue(s: string, p: nat): real
    requires PointedDecimal(s, p)
  {
    DigitsValue(s[..p]) as real + DigitsValue(s[p + 1..]) as real / Pow10(|s| - p - 1) as real
  }

  /** A text of that form has its one point at the first point, and is not all digits. */
  lemma PointedAtPointIndex(s: string)
    ensures forall p: nat :: PointedDecimal(s, p) ==> PointIndex(s) == p && !AllDigits(s)
  {
  }

  /** Index of the first '.', or |s| when there is none. */
  function PointIndex(s: string): (p: nat)
    ensures p <= |s|
    ensures p < |s| ==> s[p] == '.'
    ensures forall k :: 0 <= k < p ==> s[k] != '.'
  {
    if s == [] then 0 else if s[0] == '.' then 0 else 1 + PointIndex(s[1..])
  }
}
