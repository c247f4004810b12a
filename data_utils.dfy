/** The catalogue shapes and the sandwich-name helpers of the web app
    (src/utils/dataUtils.ts). A sandwich name may start with a number token,
    as in "#7 Spicy East Coast Italian"; `ExtractSandwichNumber` reads the
    token and `CleanSandwichName` removes it for display. */
module DataUtils {
  import opened Wrappers
  import opened Strings

  /** One ingredient of the catalogue. `isLto` stands for the optional
      `is_lto` flag, absent meaning false. */
  datatype Ingredient = Ingredient(category: string, image: string, isLto: bool)

  /** One sandwich: its name, its ingredient names in build order, a tip and
      an image path. */
  datatype Sub = Sub(name: string, ingredients: seq<string>, tip: string, image: string)

  /** `name.split(' ', 1)[0]` ends at the first literal space only. */
  predicate NotSpace(c: char) {
    c != ' '
  }

  /** The number of a sandwich: the digits of a leading `#<digits>` word,
      where only a literal space ends the word. */
  function ExtractSandwichNumber(name: string): (r: Option<string>)
    ensures r.Some? ==> |name| > 0 && name[0] == '#'
    ensures r.Some? ==> |r.value| >= 1 && AllDigits(r.value)
    ensures r.Some? ==> '#' !in r.value && ' ' !in r.value
    ensures r.Some? ==> |name| > |r.value| && name[1..|r.value| + 1] == r.value
  {
    if |name| > 0 && name[0] == '#' then
      var first := name[..LeadingCount(name, NotSpace)];
      if |first| > 1 && AllDigits(first[1..]) then Some(first[1..]) else None
    else None
  }

  /** Independent description of a number token: `name` is `#`, then the
      digits `t`, then either the end of the name or a space. */
  predicate IsNumberToken(name: string, t: string) {
    |t| >= 1 && AllDigits(t) && |name| > |t|
    && name[0] == '#' && name[1..|t| + 1] == t
    && (|name| == |t| + 1 || name[|t| + 1] == ' ')
  }

  /** The extracted number is exactly the number token, in both directions. */
  lemma ExtractIsNumberToken(name: string, t: string)
    ensures ExtractSandwichNumber(name) == Some(t) <==> IsNumberToken(name, t)
  {
    if IsNumberToken(name, t) {
      var n := LeadingCount(name, NotSpace);
      assert forall i :: 0 <= i < |t| + 1 ==> NotSpace(name[i]) by {
        forall i | 0 <= i < |t| + 1 ensures NotSpace(name[i]) {
          if i > 0 {
            assert name[i] == t[i - 1];
          }
        }
      }
      assert n == |t| + 1;
      assert name[..n][1..] == t;
    }
    if ExtractSandwichNumber(name) == Some(t) {
      var n := LeadingCount(name, NotSpace);
      assert n == |t| + 1;
    }
  }

  /** Every character is whitespace. */
  predicate AllWhitespace(s: string) {
    forall i :: 0 <= i < |s| ==> IsJsWhitespace(s[i])
  }

  /** `^#\d+\s` matches with its first whitespace character at `k`: the
      name is `#`, the digits at 1 to `k - 1` (at least one), then a
      whitespace character. */
  predicate NumberPrefixAt(name: string, k: nat) {
    2 <= k < |name| && name[0] == '#'
    && (forall i :: 1 <= i < k ==> IsDigit(name[i]))
    && IsJsWhitespace(name[k])
  }

  /** Length of the match of `^#\d+\s+` at the start of `name`, 0 when it
      does not match. The digit run and the whitespace run are both taken
      whole: a shorter digit run would be followed by a digit, not by
      whitespace, so the regular expression has no other match. */
  function NumberPrefixLength(name: string): (n: nat)
    ensures n <= |name|
    ensures n > 0 ==> n >= 3 && name[0] == '#' && IsDigit(name[1])
    ensures n > 0 ==> IsJsWhitespace(name[n - 1])
    ensures n < |name| && n > 0 ==> !IsJsWhitespace(name[n])
  {
    if |name| > 0 && name[0] == '#' then
      var d := LeadingCount(name[1..], IsDigit);
      var w := LeadingCount(name[1 + d..], IsJsWhitespace);
      if d > 0 && w > 0 then
        assert name[1 + d..][w - 1] == name[d + w];
        1 + d + w
      else 0
    else 0
  }

  /** A removed prefix is `#`, a digit run and then a whitespace run that
      starts where the digits end. */
  lemma NumberPrefixShape(name: string)
    ensures var n := NumberPrefixLength(name);
            n > 0 ==> exists k: nat :: NumberPrefixAt(name, k) && k < n && AllWhitespace(name[k..n])
  {
    var n := NumberPrefixLength(name);
    if n > 0 {
      var d := LeadingCount(name[1..], IsDigit);
      var w := LeadingCount(name[1 + d..], IsJsWhitespace);
      assert n == 1 + d + w;
      forall i | 1 <= i < 1 + d ensures IsDigit(name[i]) {
        assert name[i] == name[1..][i - 1];
      }
      var ws := name[1 + d..n];
      forall i | 0 <= i < |ws| ensures IsJsWhitespace(ws[i]) {
        assert ws[i] == name[1 + d..][i];
      }
      assert NumberPrefixAt(name, 1 + d);
    }
  }

  /** The prefix is removed exactly when `^#\d+\s` matches. */
  lemma NumberPrefixIff(name: string)
    ensures NumberPrefixLength(name) > 0 <==> exists k: nat :: NumberPrefixAt(name, k)
  {
    if k: nat :| NumberPrefixAt(name, k) {
      PrefixAfterDigits(name, k - 1);
    }
    NumberPrefixShape(name);
  }

  /** A name that `^#\d+\s` does not match is only trimmed. */
  lemma CleanWithoutNumberPrefix(name: string)
    requires forall k: nat :: !NumberPrefixAt(name, k)
    ensures CleanSandwichName(name) == JsTrim(name)
  {
    NumberPrefixIff(name);
    assert name[0..] == name;
  }

  /** `#` followed by a letter is not a number prefix: the name is only
      trimmed. */
  lemma CleanExampleHashWord(name: string)
    requires name == "#abc def"
    ensures CleanSandwichName(name) == name
  {
    assert forall k: nat :: !NumberPrefixAt(name, k) by {
      forall k: nat ensures !NumberPrefixAt(name, k) {
        if 2 <= k < |name| {
          assert !IsDigit(name[1]);
        }
      }
    }
    calc {
      CleanSandwichName(name);
    == { CleanWithoutNumberPrefix(name); }
      JsTrim(name);
    == { TrimUnchanged(name, IsJsWhitespace); }
      name;
    }
  }

  /** A number followed by a letter is not a number prefix either. */
  lemma CleanExampleDigitsThenLetter(name: string)
    requires name == "#7x Spicy"
    ensures CleanSandwichName(name) == name
  {
    assert forall k: nat :: !NumberPrefixAt(name, k) by {
      forall k: nat ensures !NumberPrefixAt(name, k) {
        if 2 < k < |name| {
          assert !IsDigit(name[2]);
        } else if k == 2 {
          assert !IsJsWhitespace(name[2]);
        }
      }
    }
    calc {
      CleanSandwichName(name);
    == { CleanWithoutNumberPrefix(name); }
      JsTrim(name);
    == { TrimUnchanged(name, IsJsWhitespace); }
      name;
    }
  }

  /** The display name: the number prefix removed, then `trim()`. */
  function CleanSandwichName(name: string): (r: string)
    ensures |r| <= |name|
    ensures r != [] ==> !IsJsWhitespace(r[0]) && !IsJsWhitespace(r[|r| - 1])
  {
    JsTrim(name[NumberPrefixLength(name)..])
  }

  /** A name that is `#`, `d` digits and then whitespace loses `#`, the
      digits and the whole whitespace run. */
  lemma PrefixAfterDigits(name: string, d: nat)
    requires 1 <= d && d + 1 < |name| && name[0] == '#'
    requires forall i :: 1 <= i <= d ==> IsDigit(name[i])
    requires IsJsWhitespace(name[d + 1])
    ensures NumberPrefixLength(name) == d + 1 + LeadingCount(name[d + 1..], IsJsWhitespace)
  {
    var s := name[1..];
    assert forall i :: 0 <= i < d ==> IsDigit(s[i]) by {
      forall i | 0 <= i < d ensures IsDigit(s[i]) {
        assert s[i] == name[i + 1];
      }
    }
    assert s[d] == name[d + 1] && !IsDigit(s[d]);
    assert LeadingCount(s, IsDigit) == d;
    assert name[d + 1..][0] == name[d + 1];
  }

  /** The positions of `#`, the digits and the whitespace in a name built
      from them. */
  lemma ShapeOfConcat(digits: string, ws: string, rest: string)
    requires |ws| >= 1
    ensures var name := "#" + digits + ws + rest;
            |digits| + 1 < |name| && name[0] == '#'
            && (forall i :: 1 <= i <= |digits| ==> name[i] == digits[i - 1])
            && name[|digits| + 1] == ws[0] && name[|digits| + 1..] == ws + rest
  {
  }

  /** A `#`, digits and a whitespace character are cleaned away together
      with the whitespace that follows. */
  lemma CleanAfterDigits(name: string, d: nat)
    requires 1 <= d && d + 1 < |name| && name[0] == '#'
    requires forall i :: 1 <= i <= d ==> IsDigit(name[i])
    requires IsJsWhitespace(name[d + 1])
    ensures CleanSandwichName(name) == JsTrim(name[d + 1..])
  {
    assert NumberPrefixLength(name) == d + 1 + LeadingCount(name[d + 1..], IsJsWhitespace) by {
      PrefixAfterDigits(name, d);
    }
    CleanDropsPrefix(name, d + 1);
  }

  /** A name of the shape `#<digits><whitespace><rest>` is cleaned to the
      trimmed rest. */
  lemma CleanRemovesNumberPrefix(digits: string, ws: string, rest: string)
    requires |digits| >= 1 && AllDigits(digits)
    requires |ws| >= 1 && forall i :: 0 <= i < |ws| ==> IsJsWhitespace(ws[i])
    ensures CleanSandwichName("#" + digits + ws + rest) == JsTrim(rest)
  {
    var name := "#" + digits + ws + rest;
    var d := |digits|;
    ShapeOfConcat(digits, ws, rest);
    calc {
      CleanSandwichName(name);
    == { CleanAfterDigits(name, d); }
      JsTrim(name[d + 1..]);
    == { assert name[d + 1..] == ws + rest; }
      JsTrim(ws + rest);
    == { TrimSkipsLeading(ws, rest, IsJsWhitespace); }
      JsTrim(rest);
    }
  }

  /** A name that does not start with `#` is only trimmed. */
  lemma CleanWithoutHash(name: string)
    requires name == [] || name[0] != '#'
    ensures CleanSandwichName(name) == JsTrim(name)
  {
  }

  /** A name that is `#` followed by digits only (no whitespace after them)
      is only trimmed, so it keeps its number. */
  lemma CleanNumberOnly(digits: string)
    requires AllDigits(digits)
    ensures CleanSandwichName("#" + digits) == JsTrim("#" + digits)
  {
    var name := "#" + digits;
    assert name[1..] == digits;
    var d := LeadingCount(digits, IsDigit);
    assert d == |digits|;
    assert name[1 + d..] == [];
  }

  /** For a name with a number token and more after it, the prefix the
      regular expression removes is `#`, the number, and the whitespace run
      that starts with the space ending the token. */
  lemma PrefixOfNumberToken(name: string, n: string)
    requires IsNumberToken(name, n) && |name| > |n| + 1
    ensures NumberPrefixLength(name) == |n| + 1 + LeadingCount(name[|n| + 1..], IsJsWhitespace)
  {
    assert forall i :: 1 <= i <= |n| ==> name[i] == n[i - 1];
    assert IsJsWhitespace(name[|n| + 1]);
    PrefixAfterDigits(name, |n|);
  }

  /** When the removed prefix is `k` characters and then a whitespace run,
      the display name is the trimmed name from `k` on. */
  lemma CleanDropsPrefix(name: string, k: nat)
    requires k <= |name| && NumberPrefixLength(name) == k + LeadingCount(name[k..], IsJsWhitespace)
    ensures CleanSandwichName(name) == JsTrim(name[k..])
  {
    TrimFromRun(name, k, NumberPrefixLength(name), IsJsWhitespace);
  }

  lemma CleanAfterNumberToken(name: string, n: string)
    requires IsNumberToken(name, n) && |name| > |n| + 1
    ensures CleanSandwichName(name) == JsTrim(name[|n| + 1..])
  {
    PrefixOfNumberToken(name, n);
    CleanDropsPrefix(name, |n| + 1);
  }

  /** When a name carries a number and continues after it, the display name
      is the trimmed remainder after `#` and the number. */
  lemma CleanAfterExtractedNumber(name: string, n: string)
    requires ExtractSandwichNumber(name) == Some(n)
    requires |name| > |n| + 1
    ensures CleanSandwichName(name) == JsTrim(name[|n| + 1..])
  {
    ExtractIsNumberToken(name, n);
    CleanAfterNumberToken(name, n);
  }

  /** No number is extracted exactly when the name has no number token. */
  lemma ExtractNoneIffNoToken(name: string)
    ensures ExtractSandwichNumber(name).None? <==> forall t :: !IsNumberToken(name, t)
  {
    var r := ExtractSandwichNumber(name);
    if r.Some? {
      ExtractIsNumberToken(name, r.value);
    } else {
      forall t ensures !IsNumberToken(name, t) {
        ExtractIsNumberToken(name, t);
      }
    }
  }

  lemma ExtractExamplesWithoutNumber()
    ensures ExtractSandwichNumber("#") == None
    ensures ExtractSandwichNumber("#abc") == None
    ensures ExtractSandwichNumber("Spicy") == None
  {
    var name := "#abc";
    forall t ensures !IsNumberToken(name, t) {
      if |t| >= 1 && |name| > |t| && name[1..|t| + 1] == t {
        assert t[0] == 'a';
      }
    }
    ExtractNoneIffNoToken(name);
  }

  /** A tab does not end the number word, so the word is not all digits. */
  lemma ExtractExampleTab()
    ensures ExtractSandwichNumber("#7\tX") == None
  {
    var name := "#7\tX";
    forall t ensures !IsNumberToken(name, t) {
      if |t| >= 2 && |name| > |t| && name[1..|t| + 1] == t {
        assert t[1] == '\t';
      }
    }
    ExtractNoneIffNoToken(name);
  }

  lemma ExtractExampleNumbered(name: string)
    requires name == "#7 Spicy East Coast Italian"
    ensures ExtractSandwichNumber(name) == Some("7")
  {
    assert name[1..2] == "7" by {
      assert |name[1..2]| == 1 && name[1..2][0] == name[1] == '7';
    }
    ExtractIsNumberToken(name, "7");
  }

  lemma CleanExampleNumbered(name: string, rest: string)
    requires rest == "Spicy East Coast Italian" && name == "#7 " + rest
    ensures CleanSandwichName(name) == rest
  {
    calc {
      CleanSandwichName(name);
    == { assert "#" + "7" + " " == "#7 "; }
      CleanSandwichName("#" + "7" + " " + rest);
    == { CleanRemovesNumberPrefix("7", " ", rest); }
      JsTrim(rest);
    == { TrimUnchanged(rest, IsJsWhitespace); }
      rest;
    }
  }

  lemma CleanExamplesUnnumbered(name: string)
    requires name == "No Number Item" || name == "#7"
    ensures CleanSandwichName(name) == name
  {
    if name == "#7" {
      CleanNumberOnly("7");
      assert "#" + "7" == "#7";
    } else {
      CleanWithoutHash(name);
    }
    TrimUnchanged(name, IsJsWhitespace);
  }

  /** `subs.find(sub => sub.name === name)`: the first sub with that name. */
  function FindByName(subs: seq<Sub>, name: string): (r: Option<Sub>)
    ensures r.None? <==> forall i :: 0 <= i < |subs| ==> subs[i].name != name
    ensures r.Some? ==> exists i :: 0 <= i < |subs| && subs[i] == r.value && r.value.name == name
                          && forall j :: 0 <= j < i ==> subs[j].name != name
  {
    if subs == [] then None
    else if subs[0].name == name then Some(subs[0])
    else
      var r := FindByName(subs[1..], name);
      assert forall i :: 0 < i < |subs| ==> subs[i] == subs[1..][i - 1];
      r
  }
}
