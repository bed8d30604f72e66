/** ASCII string operations with the meaning the program's library calls give them. */
module Text {

  datatype Option<+T> = None | Some(value: T)

  predicate IsSpace(c: char) {
    c == ' ' || '\t' <= c <= '\r'
  }

  function LowerChar(c: char): char {
    if 'A' <= c <= 'Z' then c + 32 as char else c
  }

  function UpperChar(c: char): char {
    if 'a' <= c <= 'z' then c - 32 as char else c
  }

  function ToLower(s: string): (r: string)
    ensures |r| == |s| && forall i :: 0 <= i < |s| ==> r[i] == LowerChar(s[i])
  {
    seq(|s|, i requires 0 <= i < |s| => LowerChar(s[i]))
  }

  function ToUpper(s: string): (r: string)
    ensures |r| == |s| && forall i :: 0 <= i < |s| ==> r[i] == UpperChar(s[i])
  {
    seq(|s|, i requires 0 <= i < |s| => UpperChar(s[i]))
  }

  predicate EqualFold(a: string, b: string) {
    ToLower(a) == ToLower(b)
  }

  function TrimLeft(s: string): string {
    if s != [] && IsSpace(s[0]) then TrimLeft(s[1..]) else s
  }

  function TrimRight(s: string): string {
    if s != [] && IsSpace(s[|s| - 1]) then TrimRight(s[..|s| - 1]) else s
  }

  function TrimSpace(s: string): string {
    TrimRight(TrimLeft(s))
  }

  /** No white space at either end. */
  predicate Trimmed(s: string) {
    s == [] || (!IsSpace(s[0]) && !IsSpace(s[|s| - 1]))
  }

  lemma {:induction false} TrimLeftStarts(s: string)
    ensures TrimLeft(s) == [] || !IsSpace(TrimLeft(s)[0])
  {
    if s != [] && IsSpace(s[0]) {
      TrimLeftStarts(s[1..]);
    }
  }

  lemma {:induction false} TrimRightEnds(s: string)
    ensures TrimRight(s) == [] || !IsSpace(TrimRight(s)[|TrimRight(s)| - 1])
    ensures TrimRight(s) <= s
  {
    if s != [] && IsSpace(s[|s| - 1]) {
      TrimRightEnds(s[..|s| - 1]);
    }
  }

  /** Trimming leaves a trimmed string, and leaves a trimmed string alone. */
  lemma TrimSpaceTrims(s: string)
    ensures Trimmed(TrimSpace(s))
    ensures Trimmed(s) ==> TrimSpace(s) == s
  {
    TrimLeftStarts(s);
    TrimRightEnds(TrimLeft(s));
  }

  /** Folding moves the letters of one case to the other, each to its own, and leaves every other character alone. */
  lemma LetterCase(s: string, i: nat)
    requires i < |s|
    ensures 'A' <= s[i] <= 'Z' ==>
              'a' <= ToLower(s)[i] <= 'z' && ToLower(s)[i] as int - 'a' as int == s[i] as int - 'A' as int
    ensures 'a' <= s[i] <= 'z' ==>
              'A' <= ToUpper(s)[i] <= 'Z' && ToUpper(s)[i] as int - 'A' as int == s[i] as int - 'a' as int
    ensures !('A' <= s[i] <= 'Z') ==> ToLower(s)[i] == s[i]
    ensures !('a' <= s[i] <= 'z') ==> ToUpper(s)[i] == s[i]
  {
  }

  /** Space, tab, line feed, vertical tab, form feed and carriage return. */
  const BLANKS := " \t\n\U{0B}\U{0C}\r"

  lemma BlanksAre(c: char)
    ensures c in BLANKS <==> IsSpace(c)
  {
    assert BLANKS[0] == ' ' && BLANKS[1] == '\t' && BLANKS[2] == '\n' && BLANKS[5] == '\r';
    assert BLANKS[3] == '\U{0B}' && BLANKS[4] == '\U{0C}';
  }

  lemma {:induction false} TrimLeftSkips(before: string, s: string)
    requires forall c :: c in before ==> c in BLANKS
    ensures TrimLeft(before + s) == TrimLeft(s)
  {
    if before == [] {
      assert before + s == s;
    } else {
      assert before[0] in before;
      BlanksAre(before[0]);
      assert (before + s)[1..] == before[1..] + s;
      TrimLeftSkips(before[1..], s);
    }
  }

  lemma {:induction false} TrimRightSkips(s: string, after: string)
    requires forall c :: c in after ==> c in BLANKS
    ensures TrimRight(s + after) == TrimRight(s)
  {
    if after == [] {
      assert s + after == s;
    } else {
      var n := |after| - 1;
      assert after[n] in after;
      BlanksAre(after[n]);
      assert (s + after)[..|s| + n] == s + after[..n];
      TrimRightSkips(s, after[..n]);
    }
  }

  /** What trimming takes off is exactly the blanks at both ends: it undoes any padding of a string without them. */
  lemma TrimSpaceIs(before: string, s: string, after: string)
    requires forall c :: c in before + after ==> c in BLANKS
    requires s == "" || (s[0] !in BLANKS && s[|s| - 1] !in BLANKS)
    ensures TrimSpace(before + s + after) == s
  {
    assert forall c :: c in before ==> c in before + after;
    assert forall c :: c in after ==> c in before + after;
    assert before + s + after == before + (s + after);
    TrimLeftSkips(before, s + after);
    if s == "" {
      assert s + after == after == after + "";
      TrimLeftSkips(after, "");
    } else {
      BlanksAre(s[0]);
      BlanksAre(s[|s| - 1]);
      TrimRightSkips(s, after);
    }
  }

  lemma LowerKeepsTrimmed(s: string)
    ensures Trimmed(s) ==> Trimmed(ToLower(s)) && Trimmed(ToUpper(s))
    ensures ToLower(ToLower(s)) == ToLower(s)
    ensures ToLower(ToUpper(s)) == ToLower(s)
    ensures ToUpper(ToLower(s)) == ToUpper(s)
    ensures ToUpper(ToUpper(s)) == ToUpper(s)
  {
  }

  /** Splitting at every occurrence of a separator. */
  function Split(s: string, sep: char): (parts: seq<string>)
    ensures |parts| >= 1
  {
    if s == [] then [[]]
    else if s[0] == sep then [[]] + Split(s[1..], sep)
    else
      var rest := Split(s[1..], sep);
      [[s[0]] + rest[0]] + rest[1..]
  }

  function Join(parts: seq<string>, sep: char): string {
    if parts == [] then []
    else if |parts| == 1 then parts[0]
    else parts[0] + [sep] + Join(parts[1..], sep)
  }

  /** Splitting s + [sep] + rest, where s holds no separator, peels s off. */
  lemma {:induction false} SplitPeels(s: string, sep: char, rest: string)
    requires sep !in s
    ensures Split(s, sep) == [s]
    ensures Split(s + [sep] + rest, sep) == [s] + Split(rest, sep)
  {
    var whole := s + [sep] + rest;
    if s == [] {
      assert whole[1..] == rest;
    } else {
      SplitPeels(s[1..], sep, rest);
      assert whole[1..] == s[1..] + [sep] + rest;
      assert Split(whole[1..], sep)[0] == s[1..];
      assert [s[0]] + s[1..] == s;
    }
  }

  /** Splitting undoes joining when no part holds the separator. */
  lemma {:induction false} SplitJoin(parts: seq<string>, sep: char)
    requires parts != []
    requires forall i :: 0 <= i < |parts| ==> sep !in parts[i]
    ensures Split(Join(parts, sep), sep) == parts
  {
    if |parts| == 1 {
      SplitPeels(parts[0], sep, []);
    } else {
      SplitPeels(parts[0], sep, Join(parts[1..], sep));
      SplitJoin(parts[1..], sep);
      assert [parts[0]] + parts[1..] == parts;
    }
  }

  predicate HasSuffix(s: string, suffix: string) {
    |suffix| <= |s| && s[|s| - |suffix|..] == suffix
  }

  predicate HasPrefix(s: string, prefix: string) {
    prefix <= s
  }

  /** The first position of c in s, or |s| when there is none. */
  function IndexOf(s: string, c: char): (i: nat)
    ensures i <= |s|
    ensures i < |s| ==> s[i] == c
    ensures forall j :: 0 <= j < i ==> s[j] != c
  {
    if s == [] || s[0] == c then 0 else 1 + IndexOf(s[1..], c)
  }

  /** The last position of c in s, or -1 when there is none. */
  function LastIndexOf(s: string, c: char): (i: int)
    ensures -1 <= i < |s|
    ensures i >= 0 ==> s[i] == c
    ensures forall j :: i < j < |s| ==> s[j] != c
  {
    if s == [] then -1
    else if s[|s| - 1] == c then |s| - 1
    else LastIndexOf(s[..|s| - 1], c)
  }

  /** Decimal rendering, as fmt.Sprint does for an int. */
  function Digits(n: nat): string {
    if n < 10 then [('0' as int + n) as char]
    else Digits(n / 10) + [('0' as int + n % 10) as char]
  }

  function Sprint(n: int): string {
    if n < 0 then ['-'] + Digits(-n) else Digits(n)
  }

  function Undigits(s: string): int {
    if s == [] then 0 else 10 * Undigits(s[..|s| - 1]) + (s[|s| - 1] as int - '0' as int)
  }

  lemma {:induction false} UndigitsDigits(n: nat)
    ensures Undigits(Digits(n)) == n
    ensures Digits(n) != []
    ensures forall i :: 0 <= i < |Digits(n)| ==> '0' <= Digits(n)[i] <= '9'
  {
    if n < 10 {
      assert Digits(n)[..0] == [];
      assert Undigits(Digits(n)[..0]) == 0;
    } else {
      UndigitsDigits(n / 10);
      var d := Digits(n);
      assert d[..|d| - 1] == Digits(n / 10);
    }
  }

  function Unsprint(s: string): int {
    if s != [] && s[0] == '-' then -Undigits(s[1..]) else Undigits(s)
  }

  lemma UnsprintSprint(n: int)
    ensures Unsprint(Sprint(n)) == n
    ensures forall i :: 0 <= i < |Sprint(n)| ==> Sprint(n)[i] >= '-'
  {
    hide Undigits, Digits;
    var m: nat := if n < 0 then -n else n;
    UndigitsDigits(m);
    assert Digits(m)[0] >= '0';
    if n < 0 {
      assert Sprint(n)[1..] == Digits(m);
    }
  }

  /** Integers print in base ten, with a sign in front of negative ones. */
  lemma SprintIs(q: nat, d: nat)
    requires d < 10
    ensures Sprint(10 * q + d) == (if q == 0 then "" else Sprint(q)) + ["0123456789"[d]]
    ensures q > 0 ==> Sprint(0 - q) == "-" + Sprint(q)
  {
    assert (10 * q + d) / 10 == q && (10 * q + d) % 10 == d;
    assert "0123456789"[d] == '0' + d as char by {
      var digits := "0123456789";
      assert digits[0] == '0' && digits[1] == '1' && digits[2] == '2' && digits[3] == '3' && digits[4] == '4';
      assert digits[5] == '5' && digits[6] == '6' && digits[7] == '7' && digits[8] == '8' && digits[9] == '9';
      assert d == 0 || d == 1 || d == 2 || d == 3 || d == 4 || d == 5 || d == 6 || d == 7 || d == 8 || d == 9;
    }
  }

  /** Different integers print differently, and print without control characters. */
  lemma SprintInjective(a: int, b: int)
    ensures Sprint(a) == Sprint(b) ==> a == b
    ensures forall i :: 0 <= i < |Sprint(a)| ==> Sprint(a)[i] >= '-'
  {
    hide Sprint, Unsprint;
    UnsprintSprint(a);
    UnsprintSprint(b);
  }
}
