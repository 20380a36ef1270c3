/**
 Turning arbitrary text into an identifier token (sanitizeMatrixToken in internal/config/expand.go).
 Main results: the outcome is the lower-cased words of the text joined by dashes; it is always a token, and exactly
 the tokens are left alone.
 */
module Sanitizing {
  import opened Text

  // -------------------------------------------------------- token sanitising

  predicate IsAlnum(c: char) {
    'a' <= c <= 'z' || '0' <= c <= '9'
  }

  /** Every run of other characters becomes one dash; `lastDash` tells that a dash was just written. */
  function Squash(s: string, lastDash: bool): string {
    if s == "" then ""
    else if IsAlnum(s[0]) then [s[0]] + Squash(s[1..], false)
    else if lastDash then Squash(s[1..], true)
    else ['-'] + Squash(s[1..], true)
  }

  function TrimLeftDash(s: string): string {
    if s != "" && s[0] == '-' then TrimLeftDash(s[1..]) else s
  }

  function TrimRightDash(s: string): string {
    if s != "" && s[|s| - 1] == '-' then TrimRightDash(s[..|s| - 1]) else s
  }

  function Sanitize(s: string): string {
    var n := TrimSpace(ToLower(s));
    var out := TrimRightDash(TrimLeftDash(Squash(n, false)));
    if out == "" then "item" else out
  }

  method SanitizeToken(s: string) returns (out: string)
    ensures out == Sanitize(s)
  {
    hide TrimSpace;
    var n := TrimSpace(ToLower(s));
    if n == "" { return "item"; }
    var b := SquashLoop(n);
    out := TrimRightDash(TrimLeftDash(b));
    if out == "" { out := "item"; }
  }

  method SquashLoop(n: string) returns (b: string)
    ensures b == Squash(n, false)
  {
    b := "";
    var lastDash := false;
    for i := 0 to |n|
      invariant b + Squash(n[i..], lastDash) == Squash(n, false)
    {
      SquashStep(b, n, i, lastDash);
      if IsAlnum(n[i]) {
        b, lastDash := b + [n[i]], false;
      } else if !lastDash {
        b, lastDash := b + ['-'], true;
      }
    }
  }

  lemma SquashStep(b: string, n: string, i: nat, lastDash: bool)
    requires i < |n|
    ensures b + Squash(n[i..], lastDash) ==
      if IsAlnum(n[i]) then (b + [n[i]]) + Squash(n[i + 1..], false)
      else if lastDash then b + Squash(n[i + 1..], true)
      else (b + ['-']) + Squash(n[i + 1..], true)
  {
    assert n[i..][1..] == n[i + 1..];
  }

  /** Alphanumerics and dashes, with no two dashes side by side. */
  predicate Squashed(s: string) {
    && (forall i :: 0 <= i < |s| ==> IsAlnum(s[i]) || s[i] == '-')
    && (forall i :: 0 <= i < |s| - 1 ==> s[i] != '-' || s[i + 1] != '-')
  }

  /** Non-empty runs of lower-case letters and digits, joined by single dashes. */
  predicate IsToken(s: string) {
    s != "" && Squashed(s) && s[0] != '-' && s[|s| - 1] != '-'
  }

  lemma {:induction false} SquashSquashed(s: string, lastDash: bool)
    ensures Squashed(Squash(s, lastDash))
    ensures lastDash && Squash(s, lastDash) != "" ==> Squash(s, lastDash)[0] != '-'
  {
    if s != "" {
      var next := !IsAlnum(s[0]);
      SquashSquashed(s[1..], next);
      var rest := Squash(s[1..], next);
      var head := if next then '-' else s[0];
      assert forall i :: 0 < i < |[head] + rest| ==> ([head] + rest)[i] == rest[i - 1];
    }
  }

  lemma {:induction false} SquashId(s: string, lastDash: bool)
    requires Squashed(s) && (lastDash && s != "" ==> s[0] != '-')
    ensures Squash(s, lastDash) == s
  {
    if s != "" {
      assert s == [s[0]] + s[1..];
      assert forall i :: 0 <= i < |s| - 1 ==> s[1..][i] == s[i + 1];
      SquashId(s[1..], s[0] == '-');
    }
  }

  lemma {:induction false} TrimLeftDashSquashed(s: string)
    requires Squashed(s)
    ensures var r := TrimLeftDash(s); Squashed(r) && (r == "" || r[0] != '-')
  {
    if s != "" && s[0] == '-' {
      assert forall i :: 0 <= i < |s| - 1 ==> s[1..][i] == s[i + 1];
      TrimLeftDashSquashed(s[1..]);
    }
  }

  lemma {:induction false} TrimRightDashSquashed(s: string)
    requires Squashed(s) && (s == "" || s[0] != '-')
    ensures var r := TrimRightDash(s); Squashed(r) && (r == "" || (r[0] != '-' && r[|r| - 1] != '-'))
  {
    if s != "" && s[|s| - 1] == '-' { TrimRightDashSquashed(s[..|s| - 1]); }
  }

  lemma ItemIsToken()
    ensures IsToken("item")
  {}

  /** Whatever goes in, a token comes out. */
  lemma SanitizeGivesToken(s: string)
    ensures IsToken(Sanitize(s))
  {
    hide TrimSpace;
    hide Squashed;
    hide Squash;
    var q := Squash(TrimSpace(ToLower(s)), false);
    SquashSquashed(TrimSpace(ToLower(s)), false);
    TrimLeftDashSquashed(q);
    TrimRightDashSquashed(TrimLeftDash(q));
    ItemIsToken();
  }

  /** Tokens are exactly the fixed points, so sanitising is idempotent. */
  lemma SanitizeFixes(s: string)
    ensures Sanitize(s) == s <==> IsToken(s)
    ensures Sanitize(Sanitize(s)) == Sanitize(s)
  {
    SanitizeGivesToken(s);
    TokenFixed(Sanitize(s));
    if IsToken(s) { TokenFixed(s); }
  }

  lemma TokenChars(s: string)
    requires IsToken(s)
    ensures Lowered(s) && Trimmed(s)
  {}

  lemma TokenFixed(s: string)
    requires IsToken(s)
    ensures Sanitize(s) == s
  {
    hide TrimSpace;
    hide Squash;
    TokenChars(s);
    SquashId(s, false);
  }

  // -------------------------------------------------------------- what is kept

  function AlnumRun(s: string): (n: nat)
    ensures n <= |s| && (n < |s| ==> !IsAlnum(s[n])) && forall i :: 0 <= i < n ==> IsAlnum(s[i])
    ensures s != "" && IsAlnum(s[0]) ==> n > 0
  {
    if s != "" && IsAlnum(s[0]) then 1 + AlnumRun(s[1..]) else 0
  }

  predicate IsWord(w: string) {
    w != "" && forall i :: 0 <= i < |w| ==> IsAlnum(w[i])
  }

  /** The maximal runs of letters and digits, in order. */
  function Words(s: string): (ws: seq<string>)
    ensures forall w :: w in ws ==> IsWord(w)
    decreases |s|
  {
    if s == "" then []
    else if !IsAlnum(s[0]) then Words(s[1..])
    else [s[..AlnumRun(s)]] + Words(s[AlnumRun(s)..])
  }

  function Dashed(ws: seq<string>): string {
    if ws == [] then "" else if |ws| == 1 then ws[0] else ws[0] + ("-" + Dashed(ws[1..]))
  }

  /** The dash left over when the text goes on after its last word. */
  function Trailing(s: string): string {
    if Words(s) != [] && !IsAlnum(s[|s| - 1]) then "-" else ""
  }

  lemma {:induction false} SquashRun(s: string, n: nat, lastDash: bool)
    requires n <= |s| && (n == 0 ==> !lastDash) && forall i :: 0 <= i < n ==> IsAlnum(s[i])
    ensures Squash(s, lastDash) == s[..n] + Squash(s[n..], false)
  {
    if n == 0 {
      assert s[0..] == s;
    } else {
      SquashRun(s[1..], n - 1, false);
      assert s[1..][n - 1..] == s[n..] && s[..n] == [s[0]] + s[1..][..n - 1];
    }
  }

  lemma {:induction false} SquashWords(s: string)
    ensures Squash(s, true) == Dashed(Words(s)) + Trailing(s)
    decreases |s|
  {
    hide Dashed;
    if s == "" {
      DashedShort("");
    } else if !IsAlnum(s[0]) {
      SquashWords(s[1..]);
    } else {
      var n := AlnumRun(s);
      var w, u := s[..n], s[n..];
      SquashRun(s, n, true);
      if u == "" {
        assert Words(s) == [w];
        DashedShort(w);
      } else {
        SquashWords(u[1..]);
        SquashWord(s, w, u);
      }
    }
  }

  lemma DashedShort(w: string)
    ensures Dashed([]) == "" && Dashed([w]) == w
  {}

  /** A word, and then more text. */
  lemma SquashWord(s: string, w: string, u: string)
    requires IsWord(w) && u != "" && !IsAlnum(u[0]) && s == w + u && Words(s) == [w] + Words(u)
    requires Squash(s, true) == w + Squash(u, false) && Squash(u[1..], true) == Dashed(Words(u[1..])) + Trailing(u[1..])
    ensures Squash(s, true) == Dashed(Words(s)) + Trailing(s)
  {
    hide Words, Trailing, Squash, Dashed;
    TrailingMore(s, w, u);
    SquashOther(u);
    if Words(u) == [] {
      DashedShort(w);
      assert Words(s) == [w];
      assert Squash(u[1..], true) == "" && "-" + "" == "-";
    } else {
      DashedCons(w, Words(u));
      assert w + ("-" + (Dashed(Words(u)) + Trailing(s))) == (w + ("-" + Dashed(Words(u)))) + Trailing(s);
    }
  }

  lemma SquashOther(u: string)
    requires u != "" && !IsAlnum(u[0])
    ensures Squash(u, false) == "-" + Squash(u[1..], true) && Words(u) == Words(u[1..])
  {}

  lemma DashedCons(w: string, ws: seq<string>)
    requires ws != []
    ensures Dashed([w] + ws) == w + ("-" + Dashed(ws))
  {
    assert ([w] + ws)[1..] == ws;
  }

  lemma TrailingMore(s: string, w: string, u: string)
    requires u != "" && !IsAlnum(u[0]) && s == w + u && Words(s) == [w] + Words(u)
    ensures Words(u) == [] ==> Trailing(s) == "-" && Trailing(u[1..]) == ""
    ensures Words(u) != [] ==> Trailing(s) == Trailing(u[1..])
  {
    SquashOther(u);
    assert s[|s| - 1] == u[|u| - 1];
    if Words(u) == [] { NoWordsNoAlnum(u); }
  }

  lemma {:induction false} NoWordsNoAlnum(s: string)
    requires Words(s) == []
    ensures forall i :: 0 <= i < |s| ==> !IsAlnum(s[i])
  {
    if s != "" && !IsAlnum(s[0]) {
      NoWordsNoAlnum(s[1..]);
      assert s == [s[0]] + s[1..];
    }
  }

  lemma {:induction false} DashedEnds(ws: seq<string>)
    requires ws != [] && forall w :: w in ws ==> IsWord(w)
    ensures var d := Dashed(ws); d != "" && d[0] != '-' && d[|d| - 1] != '-'
  {
    assert IsWord(ws[0]);
    if |ws| > 1 {
      assert forall w :: w in ws[1..] ==> w in ws;
      DashedEnds(ws[1..]);
    }
  }

  lemma DashesOff(lead: string, d: string, trail: string)
    requires lead in {"", "-"} && trail in {"", "-"} && d != "" && d[0] != '-' && d[|d| - 1] != '-'
    ensures TrimRightDash(TrimLeftDash(lead + (d + trail))) == d
  {
    hide TrimLeftDash, TrimRightDash;
    var t := d + trail;
    assert t[0] == d[0];
    LeadOff(lead, t);
    TrailOff(d, trail);
  }

  lemma LeadOff(lead: string, t: string)
    requires lead in {"", "-"} && t != "" && t[0] != '-'
    ensures TrimLeftDash(lead + t) == t
  {
    if lead == "-" { assert (lead + t)[1..] == t; } else { assert lead + t == t; }
  }

  lemma TrailOff(d: string, trail: string)
    requires trail in {"", "-"} && d != "" && d[|d| - 1] != '-'
    ensures TrimRightDash(d + trail) == d
  {
    var t := d + trail;
    if trail == "-" { assert t[..|t| - 1] == d && t[|t| - 1] == '-'; } else { assert t == d; }
  }

  /** Sanitising keeps the lower-cased words of the text, joined by single dashes; without a word it gives "item". */
  lemma SanitizeJoinsWords(s: string)
    ensures var ws := Words(TrimSpace(ToLower(s)));
      Sanitize(s) == if ws == [] then "item" else Dashed(ws)
  {
    hide TrimSpace, Words, Squash, Trailing, Dashed;
    var n := TrimSpace(ToLower(s));
    var lead := if n == "" || IsAlnum(n[0]) then "" else "-";
    SquashSplits(n);
    if Words(n) != [] {
      DashedEnds(Words(n));
      TrailingIs(n);
      DashesOff(lead, Dashed(Words(n)), Trailing(n));
    } else {
      TrailingIs(n);
      NoDashes();
    }
  }

  lemma TrailingIs(s: string)
    ensures Trailing(s) in {"", "-"} && (Words(s) == [] ==> Dashed(Words(s)) + Trailing(s) == "")
  {}

  lemma NoDashes()
    ensures TrimRightDash(TrimLeftDash("" + "")) == "" && TrimRightDash(TrimLeftDash("-" + "")) == ""
  {
    assert "-" + "" == "-" && "-"[1..] == "";
  }

  lemma SquashSplits(n: string)
    ensures Squash(n, false) == (if n == "" || IsAlnum(n[0]) then "" else "-") + (Dashed(Words(n)) + Trailing(n))
  {
    SquashWords(n);
    if n != "" && !IsAlnum(n[0]) { SquashWords(n[1..]); }
  }
}
