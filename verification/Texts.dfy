/** White space at the ends of a text, and numbers written out. */
module Texts {

  /** Unicode's White_Space. */
  predicate IsWhite(c: char) {
    || '\U{9}' <= c <= '\U{d}' || c == ' ' || c == '\U{85}' || c == '\U{a0}' || c == '\U{1680}'
    || '\U{2000}' <= c <= '\U{200a}' || c == '\U{2028}' || c == '\U{2029}' || c == '\U{202f}'
    || c == '\U{205f}' || c == '\U{3000}'
  }

  predicate IsTrimmed(s: string) {
    s == "" || (!IsWhite(s[0]) && !IsWhite(s[|s| - 1]))
  }

  /** The text without the white space at its ends. */
  function Trim(s: string): (t: string)
    ensures IsTrimmed(t)
    ensures IsTrimmed(s) ==> t == s
    ensures t == "" <==> forall i | 0 <= i < |s| :: IsWhite(s[i])
    decreases |s|
  {
    if s == "" then ""
    else if IsWhite(s[0]) then Trim(s[1..])
    else if IsWhite(s[|s| - 1]) then Trim(s[..|s| - 1])
    else s
  }

  /** A number in decimal digits. */
  function Decimal(n: nat): (s: string)
    ensures s != "" && forall i | 0 <= i < |s| :: '0' <= s[i] <= '9'
  {
    var last := ['0' + (n % 10) as char];
    if n < 10 then last else Decimal(n / 10) + last
  }

  /** Nothing but white space is cut off, and only at the ends. */
  lemma {:induction false} TrimCuts(s: string) returns (from: nat, to: nat)
    ensures from <= to <= |s| && Trim(s) == s[from..to]
    ensures forall i | 0 <= i < from || to <= i < |s| :: IsWhite(s[i])
    decreases |s|
  {
    hide IsWhite, IsTrimmed;
    if s == "" {
      return 0, 0;
    } else if IsWhite(s[0]) {
      var i, j := TrimCuts(s[1..]);
      from, to := i + 1, j + 1;
      assert s[1..][i..j] == s[from..to];
      assert forall k | 0 < k < |s| :: s[k] == s[1..][k - 1];
    } else if IsWhite(s[|s| - 1]) {
      from, to := TrimCuts(s[..|s| - 1]);
      assert s[..|s| - 1][from..to] == s[from..to];
      assert forall k | 0 <= k < |s| - 1 :: s[k] == s[..|s| - 1][k];
    } else {
      return 0, |s|;
    }
  }

  lemma {:induction false} TrimPadded(before: string, text: string, after: string)
    requires IsTrimmed(text) && text != "" && forall c | c in before + after :: IsWhite(c)
    ensures Trim(before + text + after) == text
    decreases |before| + |after|
  {
    hide IsWhite;
    var s := before + text + after;
    if before != "" {
      assert s[0] == before[0] && before[0] in before + after && s[1..] == before[1..] + text + after;
      TrimPadded(before[1..], text, after);
    } else if after != "" {
      var n := |after| - 1;
      assert s == text + after && s[0] == text[0] && s[|s| - 1] == after[n] && after[n] in before + after;
      assert s[..|s| - 1] == before + text + after[..n];
      TrimPadded(before, text, after[..n]);
    } else {
      assert s == text;
    }
  }

  /** The number that digits stand for. */
  function Number(s: string): int {
    if s == "" then 0 else 10 * Number(s[..|s| - 1]) + (s[|s| - 1] as int - '0' as int)
  }

  lemma {:induction false} DecimalReads(n: nat)
    ensures Number(Decimal(n)) == n && (Decimal(n)[0] == '0' ==> n == 0)
  {
    var last := ['0' + (n % 10) as char];
    assert last[..0] == "";
    if n >= 10 {
      DecimalReads(n / 10);
      assert Decimal(n)[..|Decimal(n)| - 1] == Decimal(n / 10);
    }
  }
}
