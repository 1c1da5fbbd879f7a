/** Text as sequences of ASCII characters: the few string operations the daemon parses with. */
module Text {
  import opened Options

  predicate IsSpace(c: char) {
    c == ' ' || c == '\t' || c == '\n' || c == '\r' || c == (11 as char) || c == (12 as char)
  }

  /** Tab, newline, vertical tab, form feed, carriage return, and space. */
  lemma SpacesExactly(c: char)
    ensures IsSpace(c) <==> 9 <= c as int <= 13 || c as int == 32
  {
  }

  predicate StartsWith(s: string, prefix: string) {
    |prefix| <= |s| && s[..|prefix|] == prefix
  }

  predicate EndsWith(s: string, suffix: string) {
    |suffix| <= |s| && s[|s| - |suffix|..] == suffix
  }

  /** `sep` stands at `i`. */
  predicate OccursAt(s: string, sep: string, i: nat) {
    i + |sep| <= |s| && s[i..i + |sep|] == sep
  }

  function FindFrom(s: string, sep: string, i: nat): (r: Option<nat>)
    requires i <= |s|
    ensures r.Some? ==> i <= r.value && OccursAt(s, sep, r.value)
    ensures forall j: nat :: i <= j < (if r.Some? then r.value else |s| + 1) ==> !OccursAt(s, sep, j)
    decreases |s| - i
  {
    if OccursAt(s, sep, i) then Some(i) else if i == |s| then None else FindFrom(s, sep, i + 1)
  }

  /** Where `sep` first occurs. */
  function Find(s: string, sep: string): (r: Option<nat>)
    ensures r.Some? ==> OccursAt(s, sep, r.value)
    ensures forall j: nat :: j < (if r.Some? then r.value else |s| + 1) ==> !OccursAt(s, sep, j)
  {
    FindFrom(s, sep, 0)
  }

  /** Where a character last occurs. */
  function FindLast(s: string, c: char): (r: Option<nat>)
    ensures r.Some? ==> r.value < |s| && s[r.value] == c && forall j :: r.value < j < |s| ==> s[j] != c
    ensures r.None? ==> c !in s
  {
    if s == "" then None else if s[|s| - 1] == c then Some(|s| - 1) else FindLast(s[..|s| - 1], c)
  }

  function SplitOnce(s: string, sep: string): Option<(string, string)> {
    match Find(s, sep)
    case None => None
    case Some(i) => Some((s[..i], s[i + |sep|..]))
  }

  /** The pieces between the occurrences of `sep`, taken left to right. */
  function Split(s: string, sep: string): (r: seq<string>)
    requires sep != ""
    ensures r != []
    decreases |s|
  {
    match Find(s, sep)
    case None => [s]
    case Some(i) => [s[..i]] + Split(s[i + |sep|..], sep)
  }

  function Join(pieces: seq<string>, sep: string): string
    requires pieces != []
  {
    if |pieces| == 1 then pieces[0] else pieces[0] + sep + Join(pieces[1..], sep)
  }

  lemma {:induction false} JoinSplit(s: string, sep: string)
    requires sep != ""
    ensures Join(Split(s, sep), sep) == s
    decreases |s|
  {
    match Find(s, sep)
    case None =>
    case Some(i) =>
      var rest := s[i + |sep|..];
      JoinSplit(rest, sep);
      assert Split(s, sep)[1..] == Split(rest, sep);
      assert s == s[..i] + sep + rest;
  }

  lemma {:induction false} JoinAppends(a: seq<string>, b: seq<string>, sep: string)
    requires a != [] && b != []
    ensures Join(a + b, sep) == Join(a, sep) + sep + Join(b, sep)
  {
    if |a| == 1 {
      assert (a + b)[1..] == b;
    } else {
      assert (a + b)[1..] == a[1..] + b;
      JoinAppends(a[1..], b, sep);
    }
  }

  lemma FirstIsFind(s: string, sep: string, i: nat)
    requires OccursAt(s, sep, i) && forall j: nat :: j < i ==> !OccursAt(s, sep, j)
    ensures Find(s, sep) == Some(i)
  {
  }

  lemma OccursOne(s: string, c: char, j: nat)
    ensures OccursAt(s, [c], j) <==> j < |s| && s[j] == c
  {
    if j < |s| {
      assert s[j..j + 1] == [s[j]];
    }
  }

  lemma FindBefore(a: string, c: char, b: string)
    ensures var found := Find(a, [c]);
            Find(a + [c] + b, [c]) == Some(if found.Some? then found.value else |a|)
  {
    var s := a + [c] + b;
    var found := Find(a, [c]);
    var i: nat := if found.Some? then found.value else |a|;
    forall j: nat | j < i ensures !OccursAt(s, [c], j) {
      OccursOne(s, c, j);
      OccursOne(a, c, j);
    }
    OccursOne(s, c, i);
    if found.Some? {
      OccursOne(a, c, i);
    }
    FirstIsFind(s, [c], i);
  }

  lemma SplitUnfolds(s: string, sep: string, i: nat, piece: string, rest: string)
    requires sep != "" && Find(s, sep) == Some(i) && s == piece + sep + rest && |piece| == i
    ensures Split(s, sep) == [piece] + Split(rest, sep)
  {
    assert s[..i] == piece && s[i + |sep|..] == rest;
  }

  lemma Regroup<T>(a: seq<T>, b: seq<T>, c: seq<T>)
    ensures (a + b) + c == a + (b + c)
  {
  }

  lemma SplitAtStep(a: string, c: char, b: string, piece: string, rest: string)
    requires Find(a, [c]) == Some(|piece|) && a == piece + [c] + rest
    requires Split(rest + [c] + b, [c]) == Split(rest, [c]) + Split(b, [c])
    ensures Split(a + [c] + b, [c]) == Split(a, [c]) + Split(b, [c])
  {
    var whole := a + [c] + b;
    var tail := rest + [c] + b;
    assert whole == piece + [c] + tail;
    assert Find(whole, [c]) == Some(|piece|) by { FindBefore(a, c, b); }
    SplitUnfolds(whole, [c], |piece|, piece, tail);
    SplitUnfolds(a, [c], |piece|, piece, rest);
    Regroup([piece], Split(rest, [c]), Split(b, [c]));
  }

  /** A character between two texts splits them apart, whatever they hold. */
  lemma {:induction false} SplitAt(a: string, c: char, b: string)
    ensures Split(a + [c] + b, [c]) == Split(a, [c]) + Split(b, [c])
    decreases |a|
  {
    match Find(a, [c])
    case None =>
      FindBefore(a, c, b);
      SplitUnfolds(a + [c] + b, [c], |a|, a, b);
    case Some(i) =>
      var piece, rest := a[..i], a[i + 1..];
      OccursOne(a, c, i);
      assert a == piece + [c] + rest;
      SplitAt(rest, c, b);
      SplitAtStep(a, c, b, piece, rest);
  }

  function TrimStart(s: string): (r: string)
    ensures r == "" || !IsSpace(r[0])
  {
    if s == "" || !IsSpace(s[0]) then s else TrimStart(s[1..])
  }

  /** How far the last of the first `n` characters that is no space reaches. */
  function TrimmedEnd(s: string, n: nat): (r: nat)
    requires n <= |s|
    ensures r <= n && (r > 0 ==> !IsSpace(s[r - 1]))
    ensures forall i :: r <= i < n ==> IsSpace(s[i])
  {
    if n == 0 || !IsSpace(s[n - 1]) then n else TrimmedEnd(s, n - 1)
  }

  function TrimEnd(s: string): (r: string)
    ensures r == "" || !IsSpace(r[|r| - 1])
    ensures r <= s
    ensures forall i :: |r| <= i < |s| ==> IsSpace(s[i])
  {
    s[..TrimmedEnd(s, |s|)]
  }

  function Trim(s: string): string {
    TrimEnd(TrimStart(s))
  }

  lemma TrimPlain(s: string)
    requires s != "" && !IsSpace(s[0]) && !IsSpace(s[|s| - 1])
    ensures TrimStart(s) == TrimEnd(s) == Trim(s) == s
  {
    assert s[..|s|] == s;
  }

  function LowerChar(c: char): char {
    if 'A' <= c <= 'Z' then c + ('a' - 'A') else c
  }

  function Lower(s: string): (r: string)
    ensures |r| == |s| && forall i :: 0 <= i < |s| ==> r[i] == LowerChar(s[i])
  {
    seq(|s|, i requires 0 <= i < |s| => LowerChar(s[i]))
  }

  // ---------- numbers ----------

  predicate IsDigit(c: char) {
    '0' <= c <= '9'
  }

  function DigitOf(n: nat): char
    requires n < 10
  {
    '0' + n as char
  }

  /** The number a run of digits writes, absent when some character is not a digit. */
  function Digits(s: string): Option<nat> {
    if s == "" then Some(0)
    else
      var last := s[|s| - 1];
      match Digits(s[..|s| - 1])
      case None => None
      case Some(before) => if IsDigit(last) then Some(10 * before + (last as int - '0' as int)) else None
  }

  /** Reads a number up to `max` as the standard library does: digits, possibly behind one plus sign. */
  function ParseUpTo(s: string, max: nat): Option<nat> {
    var digits := if s != "" && s[0] == '+' then s[1..] else s;
    if digits == "" then None
    else
      match Digits(digits)
      case None => None
      case Some(n) => if n <= max then Some(n) else None
  }

  function Decimal(n: nat): (r: string)
    ensures r != ""
  {
    if n < 10 then [DigitOf(n)] else Decimal(n / 10) + [DigitOf(n % 10)]
  }

  /** Writing a number and reading it back gives the number, in digits only. */
  lemma {:induction false} DecimalReadsBack(n: nat)
    ensures Digits(Decimal(n)) == Some(n)
    ensures forall i :: 0 <= i < |Decimal(n)| ==> IsDigit(Decimal(n)[i])
  {
    if n < 10 {
      assert Decimal(n)[..0] == "";
    } else {
      DecimalReadsBack(n / 10);
      var s := Decimal(n);
      assert s[..|s| - 1] == Decimal(n / 10);
    }
  }

  /** Zeros and nothing else. */
  predicate OnlyZeros(s: string) {
    forall i :: 0 <= i < |s| ==> s[i] == '0'
  }

  lemma {:induction false} ZerosAreNothing(zeros: string)
    requires OnlyZeros(zeros)
    ensures Digits(zeros) == Some(0)
  {
    if zeros != "" {
      ZerosAreNothing(zeros[..|zeros| - 1]);
    }
  }

  lemma {:induction false} ZerosInFront(zeros: string, s: string)
    requires OnlyZeros(zeros)
    ensures Digits(zeros + s) == Digits(s)
  {
    if s == "" {
      assert zeros + s == zeros;
      ZerosAreNothing(zeros);
    } else {
      var n := |s| - 1;
      assert (zeros + s)[..|zeros + s| - 1] == zeros + s[..n];
      ZerosInFront(zeros, s[..n]);
    }
  }

  /** A run of digits that says `n` is zeros, maybe none, in front of `n` in decimal. */
  ghost predicate Writes(s: string, n: nat) {
    exists zeros: string :: OnlyZeros(zeros) && s == zeros + Decimal(n)
  }

  lemma OneMoreDigit(before: string, m: nat, zeros: string, c: char)
    requires OnlyZeros(zeros) && before == zeros + Decimal(m) && IsDigit(c)
    ensures Writes(before + [c], 10 * m + (c as int - '0' as int))
  {
    var n := 10 * m + (c as int - '0' as int);
    if m == 0 {
      assert before == zeros + "0" && Decimal(n) == [c];
      assert OnlyZeros(zeros + "0") && before + [c] == (zeros + "0") + Decimal(n);
    } else {
      assert n / 10 == m && Decimal(n) == Decimal(m) + [c];
      assert before + [c] == zeros + Decimal(n);
    }
  }

  lemma {:induction false} DigitsWrite(s: string)
    requires s != "" && Digits(s).Some?
    ensures Writes(s, Digits(s).value)
  {
    var before, c := s[..|s| - 1], s[|s| - 1];
    assert s == before + [c];
    if before == "" {
      assert Decimal(Digits(s).value) == [c] && OnlyZeros("") && s == "" + Decimal(Digits(s).value);
    } else {
      DigitsWrite(before);
      var zeros: string :| OnlyZeros(zeros) && before == zeros + Decimal(Digits(before).value);
      OneMoreDigit(before, Digits(before).value, zeros, c);
    }
  }

  lemma DigitsExactly(s: string, n: nat)
    ensures s != "" && Digits(s) == Some(n) <==> Writes(s, n)
  {
    if s != "" && Digits(s) == Some(n) {
      DigitsWrite(s);
    }
    if zeros: string :| OnlyZeros(zeros) && s == zeros + Decimal(n) {
      ZerosInFront(zeros, Decimal(n));
      DecimalReadsBack(n);
    }
  }

  /** Which texts are read as which number: its decimal, zeros allowed in front and one plus sign before those. */
  lemma NumberExactly(s: string, max: nat, n: nat)
    ensures ParseUpTo(s, max) == Some(n)
            <==> n <= max && (if s != "" && s[0] == '+' then Writes(s[1..], n) else Writes(s, n))
  {
    DigitsExactly(if s != "" && s[0] == '+' then s[1..] else s, n);
  }
}
