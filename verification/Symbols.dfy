/** Ticker symbols and the small string operations the run message relies on. */
module Symbols {

  /** Announces the failed symbols in a run message. */
  const TOKEN := "failed_tickers="

  predicate SymbolChar(c: char) {
    'A' <= c <= 'Z' || 'a' <= c <= 'z' || '0' <= c <= '9' || c == '.' || c == '-'
  }

  /** SYMBOL_RE.fullmatch: one to twelve letters, digits, dots or hyphens. */
  predicate TokenSafe(symbol: string) {
    1 <= |symbol| <= 12 && forall i :: 0 <= i < |symbol| ==> SymbolChar(symbol[i])
  }

  /** The edges of the rule: the neighbours of each range, and the length limit. */
  lemma SymbolEdges(s: string)
    ensures TokenSafe("AZaz09.-") && !TokenSafe("") && !TokenSafe("A_B") && !TokenSafe("A,B") && !TokenSafe("A B")
    ensures forall c :: c in "@[`{/:" ==> !SymbolChar(c)
    ensures (forall i :: 0 <= i < |s| ==> 'A' <= s[i] <= 'Z') ==> (TokenSafe(s) <==> 0 < |s| < 13)
  {
    assert "A_B"[1] == '_' && "A,B"[1] == ',' && "A B"[1] == ' ';
  }

  /** The characters Python's \s matches in text. */
  predicate IsSpace(c: char) {
    || '\t' <= c <= '\r' || '\U{1C}' <= c <= ' ' || c == '\U{85}' || c == '\U{A0}' || c == '\U{1680}'
    || '\U{2000}' <= c <= '\U{200A}' || c == '\U{2028}' || c == '\U{2029}' || c == '\U{202F}'
    || c == '\U{205F}' || c == '\U{3000}'
  }

  predicate Lacks(s: string, c: char) {
    forall i :: 0 <= i < |s| ==> s[i] != c
  }

  predicate NoSpace(s: string) {
    forall i :: 0 <= i < |s| ==> !IsSpace(s[i])
  }

  /** `str(n)`. */
  function Decimal(n: nat): string
    ensures |Decimal(n)| > 0
    ensures forall i :: 0 <= i < |Decimal(n)| ==> '0' <= Decimal(n)[i] <= '9'
  {
    var digit := ['0' + (n % 10) as char];
    if n < 10 then digit else Decimal(n / 10) + digit
  }

  /** `",".join(parts)`. */
  function Join(parts: seq<string>): string {
    if parts == [] then "" else if |parts| == 1 then parts[0] else parts[0] + "," + Join(parts[1..])
  }

  /** `s.split(",")`: always at least one part. */
  function Split(s: string): (parts: seq<string>)
    ensures parts != []
  {
    if s == "" then [""]
    else
      var rest := Split(s[1..]);
      if s[0] == ',' then [""] + rest else [[s[0]] + rest[0]] + rest[1..]
  }

  lemma {:induction false} SplitPlain(s: string, tail: string)
    requires Lacks(s, ',')
    ensures Split(s) == [s]
    ensures Split(s + "," + tail) == [s] + Split(tail)
  {
    if s == "" {
      assert ("" + "," + tail)[1..] == tail;
    } else {
      SplitPlain(s[1..], tail);
      assert (s + "," + tail)[1..] == s[1..] + "," + tail;
      assert [s[0]] + s[1..] == s;
    }
  }

  /** Printing a list of comma-free parts and splitting it again gives the list back. */
  lemma {:induction false} SplitJoin(parts: seq<string>)
    requires parts != [] && forall i :: 0 <= i < |parts| ==> Lacks(parts[i], ',')
    ensures Split(Join(parts)) == parts
  {
    if |parts| == 1 {
      SplitPlain(parts[0], "");
    } else {
      SplitJoin(parts[1..]);
      SplitPlain(parts[0], Join(parts[1..]));
    }
  }

  lemma {:induction false} JoinNoSpace(parts: seq<string>)
    requires forall i :: 0 <= i < |parts| ==> TokenSafe(parts[i])
    ensures NoSpace(Join(parts))
    ensures parts != [] ==> Join(parts) != ""
  {
    if |parts| > 1 { JoinNoSpace(parts[1..]); }
  }
}
