/** Names of dump files and of the groups inside them. Labels are byte strings, one char a byte. */
module DumpNames {

  const MAX_NAME: nat := 80

  /** std::isalnum in the C locale, or one of the three punctuation characters that are kept. */
  predicate IsSafe(c: char) {
    '0' <= c <= '9' || 'A' <= c <= 'Z' || 'a' <= c <= 'z' || c == '_' || c == '-' || c == '.'
  }

  predicate AllSafe(s: string) {
    forall i :: 0 <= i < |s| ==> IsSafe(s[i])
  }

  function SafeChar(c: char): char {
    if IsSafe(c) then c else '_'
  }

  /** What a label becomes inside a name. */
  function Sanitized(value: string): string {
    var safe := seq(|value|, i requires 0 <= i < |value| => SafeChar(value[i]));
    if safe == [] then "unnamed" else if |safe| > MAX_NAME then safe[..MAX_NAME] else safe
  }

  /** Letters, digits and "_-." stay; every other character becomes an underscore; an empty label gets a name. */
  method SanitizeName(value: string) returns (result: string)
    ensures result == Sanitized(value)
    ensures value == "" ==> result == "unnamed"
    ensures value != "" ==>
              && |result| == (if |value| < 80 then |value| else 80)
              && forall k | 0 <= k < |result| ::
                   result[k] == if '0' <= value[k] <= '9' || 'A' <= value[k] <= 'Z' || 'a' <= value[k] <= 'z'
                                   || value[k] in {'_', '-', '.'} then value[k] else '_'
  {
    result := "";
    for i := 0 to |value|
      invariant |result| == i && forall j :: 0 <= j < i ==> result[j] == SafeChar(value[j])
    {
      var c := value[i];
      if IsSafe(c) {
        result := result + [c];
      } else {
        result := result + ['_'];
      }
    }
    assert result == seq(|value|, i requires 0 <= i < |value| => SafeChar(value[i]));
    if result == "" {
      return "unnamed";
    }
    if |result| > MAX_NAME {
      result := result[..MAX_NAME];
    }
  }

  /** A sanitized name is non-empty, short and safe, and sanitizing changes nothing but other names. */
  lemma SanitizedIsSafe(value: string)
    ensures 1 <= |Sanitized(value)| <= MAX_NAME && AllSafe(Sanitized(value))
    ensures Sanitized(value) == value <==> 1 <= |value| <= MAX_NAME && AllSafe(value)
    ensures Sanitized(Sanitized(value)) == Sanitized(value)
  {
    SafeIsFixed(Sanitized(value));
    SafeIsFixed(value);
  }

  lemma SafeIsFixed(value: string)
    ensures 1 <= |value| <= MAX_NAME && AllSafe(value) ==> Sanitized(value) == value
  {
    var safe := seq(|value|, i requires 0 <= i < |value| => SafeChar(value[i]));
    if AllSafe(value) {
      assert safe == value;
    }
  }

  // ---------- decimal numbers ----------

  function Digit(d: nat): char
    requires d < 10
  {
    "0123456789"[d]
  }

  function ToDecimal(n: nat): string {
    if n < 10 then [Digit(n)] else ToDecimal(n / 10) + [Digit(n % 10)]
  }

  function DigitValue(c: char): nat {
    if '0' <= c <= '9' then (c - '0') as nat else 0
  }

  function FromDecimal(s: string): nat {
    if s == "" then 0 else FromDecimal(s[..|s| - 1]) * 10 + DigitValue(s[|s| - 1])
  }

  lemma {:induction false} DecimalRoundTrip(n: nat)
    ensures FromDecimal(ToDecimal(n)) == n
    ensures '_' !in ToDecimal(n)
  {
    hide Digit, DigitValue;
    if n < 10 {
      DigitAppended("", n);
    } else {
      DecimalRoundTrip(n / 10);
      DigitAppended(ToDecimal(n / 10), n % 10);
    }
  }

  lemma DigitAppended(front: string, d: nat)
    requires d < 10
    ensures FromDecimal(front + [Digit(d)]) == FromDecimal(front) * 10 + d
    ensures '_' !in front ==> '_' !in front + [Digit(d)]
  {
    hide Digit, DigitValue;
    DigitRoundTrip(d);
    assert (front + [Digit(d)])[..|front|] == front;
  }

  lemma DigitRoundTrip(d: nat)
    requires d < 10
    ensures DigitValue(Digit(d)) == d && Digit(d) != '_'
  {
  }

  /** The last digit is that of the number, and the digits before it are those of a tenth of it. */
  lemma DecimalDigits(n: nat)
    ensures var s := ToDecimal(n);
            && s != "" && s[|s| - 1] as int == '0' as int + n % 10
            && s[..|s| - 1] == if n < 10 then "" else ToDecimal(n / 10)
  {
  }

  // ---------- names ----------

  function GroupName(index: nat, name: string): string {
    "view_" + ToDecimal(index) + "_" + Sanitized(name)
  }

  function DumpFilename(name: string, kernelId: nat): string {
    "krepe_" + Sanitized(name) + "_" + ToDecimal(kernelId) + ".h5"
  }

  /** krepe_<label>_<id>.h5, and view_<index>_<label> for the groups. */
  lemma NamesAreSpelled(name: string, id: nat)
    ensures DumpFilename(name, id) == "krepe_" + Sanitized(name) + "_" + ToDecimal(id) + ".h5"
    ensures GroupName(id, name) == "view_" + ToDecimal(id) + "_" + Sanitized(name)
  {
    hide Sanitized, ToDecimal;
  }

  /** Text before the first underscore determines the split. */
  lemma SplitAtFirst(a: string, x: string, b: string, y: string)
    requires a + "_" + x == b + "_" + y
    requires '_' !in a && '_' !in b
    ensures a == b && x == y
  {
    var s, t := a + "_" + x, b + "_" + y;
    assert s[|a|] == '_' && t[|b|] == '_';
    assert forall i :: 0 <= i < |a| ==> s[i] == a[i];
    assert forall i :: 0 <= i < |b| ==> t[i] == b[i];
    assert |a| == |b|;
    assert a == s[..|a|] && b == t[..|b|] && x == s[|a| + 1..] && y == t[|b| + 1..];
  }

  /** So does the text after the last one. */
  lemma SplitAtLast(x: string, a: string, y: string, b: string)
    requires x + "_" + a == y + "_" + b
    requires '_' !in a && '_' !in b
    ensures a == b && x == y
  {
    var s, t := x + "_" + a, y + "_" + b;
    assert s[|x|] == '_' && t[|y|] == '_';
    assert forall p :: |x| < p < |s| ==> s[p] == a[p - |x| - 1];
    assert forall p :: |y| < p < |t| ==> t[p] == b[p - |y| - 1];
    assert |x| == |y|;
    assert a == s[|x| + 1..] && b == t[|y| + 1..] && x == s[..|x|] && y == t[..|y|];
  }

  /** Two groups of a snapshot have the same name exactly when index and sanitized label agree. */
  lemma GroupNamesDistinct(i: nat, name: string, j: nat, name': string)
    ensures GroupName(i, name) == GroupName(j, name') <==> i == j && Sanitized(name) == Sanitized(name')
  {
    hide Sanitized, ToDecimal;
    if GroupName(i, name) == GroupName(j, name') {
      var s := ToDecimal(i) + "_" + Sanitized(name);
      var t := ToDecimal(j) + "_" + Sanitized(name');
      assert GroupName(i, name) == "view_" + s && GroupName(j, name') == "view_" + t;
      assert s == GroupName(i, name)[5..] && t == GroupName(j, name')[5..];
      DecimalRoundTrip(i);
      DecimalRoundTrip(j);
      SplitAtFirst(ToDecimal(i), Sanitized(name), ToDecimal(j), Sanitized(name'));
    }
  }

  /** Two dumps share a file exactly when kernel id and sanitized label agree. */
  lemma FilenamesDistinct(name: string, i: nat, name': string, j: nat)
    ensures DumpFilename(name, i) == DumpFilename(name', j) <==> i == j && Sanitized(name) == Sanitized(name')
  {
    hide Sanitized, ToDecimal;
    if DumpFilename(name, i) == DumpFilename(name', j) {
      var f, g := DumpFilename(name, i), DumpFilename(name', j);
      var a, b := ToDecimal(i) + ".h5", ToDecimal(j) + ".h5";
      assert f == "krepe_" + (Sanitized(name) + "_" + a) && g == "krepe_" + (Sanitized(name') + "_" + b);
      assert f[6..] == Sanitized(name) + "_" + a && g[6..] == Sanitized(name') + "_" + b;
      DecimalRoundTrip(i);
      DecimalRoundTrip(j);
      SplitAtLast(Sanitized(name), a, Sanitized(name'), b);
      assert ToDecimal(i) == a[..|a| - 3] && ToDecimal(j) == b[..|b| - 3];
    }
  }
}
