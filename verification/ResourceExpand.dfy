/**
 Expanding resources over their matrices and loops (internal/config/expand.go).
 Main results: the ids of a resource's instances are pairwise distinct exactly when names that several keys share
 have one value and the value tokens of each name differ, provided no token but those of the last name holds a dash;
 with such dashes ids can collide; and expansion is idempotent.
 */
module ResourceExpand {
  import opened Text
  import opened Normalize
  import opened ConfigModel
  import opened Sanitizing
  import opened MatrixWalk
  import opened MatrixExpand

  // ------------------------------------------------------- template tokens

  predicate IsPatternSpace(c: char) {
    c as int == 9 || c as int == 10 || c as int == 12 || c as int == 13 || c == ' '
  }

  predicate IsNameChar(c: char) {
    'A' <= c <= 'Z' || 'a' <= c <= 'z' || '0' <= c <= '9' || c == '_' || c == '.' || c == '-'
  }

  function SpaceRun(s: string): (n: nat)
    ensures n <= |s|
  {
    if s != "" && IsPatternSpace(s[0]) then 1 + SpaceRun(s[1..]) else 0
  }

  function NameRun(s: string): (n: nat)
    ensures n <= |s|
  {
    if s != "" && IsNameChar(s[0]) then 1 + NameRun(s[1..]) else 0
  }

  /** A `{{ name }}` at the front of the text: its length and the name; length 0 when there is none. */
  function TokenAt(s: string): (r: (nat, string))
    ensures r.0 <= |s|
  {
    if |s| < 2 || s[0] != '{' || s[1] != '{' then (0, "")
    else
      var a := s[2..];
      var b := a[SpaceRun(a)..];
      var name := b[..NameRun(b)];
      var c := b[|name|..];
      var d := c[SpaceRun(c)..];
      if name != "" && |d| >= 2 && d[0] == '}' && d[1] == '}' then (|s| - |d| + 2, name) else (0, "")
  }

  /** Replaces every token by the variable's value, or by nothing when the variable is unknown. */
  function Replace(s: string, vars: Vars): string {
    if s == "" then ""
    else
      var (n, name) := TokenAt(s);
      if n == 0 then [s[0]] + Replace(s[1..], vars)
      else (if name in vars then vars[name] else "") + Replace(s[n..], vars)
  }

  predicate TokenFree(s: string) {
    forall i :: 0 <= i <= |s| ==> TokenAt(s[i..]).0 == 0
  }

  lemma {:induction false} ReplaceTokenFree(s: string, vars: Vars)
    requires TokenFree(s)
    ensures Replace(s, vars) == s
  {
    hide TokenAt;
    if s != "" {
      assert s[0..] == s;
      forall i | 0 <= i <= |s[1..]| ensures TokenAt(s[1..][i..]).0 == 0 { assert s[1..][i..] == s[i + 1..]; }
      ReplaceTokenFree(s[1..], vars);
      assert s == [s[0]] + s[1..];
    }
  }

  function ReplaceEach(xs: seq<string>, vars: Vars): seq<string> {
    seq(|xs|, i requires 0 <= i < |xs| => Replace(xs[i], vars))
  }

  function ApplyVars(r: Resource, vars: Vars): Resource {
    if |vars| == 0 then r
    else
      var f, c := r.file, r.command;
      r.(
        id := Replace(r.id, vars), kind := Replace(r.kind, vars), host := Replace(r.host, vars),
        delegateTo := Replace(r.delegateTo, vars),
        file := FileSpec(Replace(f.path, vars), Replace(f.content, vars), Replace(f.mode, vars),
                         Replace(f.checksum, vars), Replace(f.signature, vars), Replace(f.signingKey, vars)),
        command := c.(command := Replace(c.command, vars), creates := Replace(c.creates, vars),
                      onlyIf := Replace(c.onlyIf, vars), unless := Replace(c.unless, vars),
                      refreshCommand := Replace(c.refreshCommand, vars), becomeUser := Replace(c.becomeUser, vars),
                      rescueCommand := Replace(c.rescueCommand, vars), alwaysCommand := Replace(c.alwaysCommand, vars),
                      retryBackoff := Replace(c.retryBackoff, vars), untilContains := Replace(c.untilContains, vars)),
        registry := RegistrySpec(Replace(r.registry.key, vars), Replace(r.registry.value, vars),
                                 Replace(r.registry.valueType, vars)),
        task := TaskSpec(Replace(r.task.name, vars), Replace(r.task.schedule, vars), Replace(r.task.command, vars)),
        links := Links(ReplaceEach(r.links.dependsOn, vars), ReplaceEach(r.links.require, vars),
                       ReplaceEach(r.links.before, vars), ReplaceEach(r.links.notify, vars),
                       ReplaceEach(r.links.subscribe, vars), ReplaceEach(r.links.notifyHandlers, vars)),
        tags := ReplaceEach(r.tags, vars))
  }

  /** The texts of a resource that may hold tokens. */
  function Texts(r: Resource): seq<string> {
    [r.id, r.kind, r.host, r.delegateTo, r.file.path, r.file.content, r.file.mode, r.file.checksum, r.file.signature,
     r.file.signingKey, r.command.command, r.command.creates, r.command.onlyIf, r.command.unless,
     r.command.refreshCommand, r.command.becomeUser, r.command.rescueCommand, r.command.alwaysCommand,
     r.command.retryBackoff, r.command.untilContains, r.registry.key, r.registry.value, r.registry.valueType,
     r.task.name, r.task.schedule, r.task.command]
  }

  /** The lists of a resource whose entries may hold tokens. */
  function Lists(r: Resource): seq<seq<string>> {
    [r.links.dependsOn, r.links.require, r.links.before, r.links.notify, r.links.subscribe, r.links.notifyHandlers, r.tags]
  }

  /** The rest agrees. */
  predicate SameRest(r: Resource, q: Resource) {
    && q.when == r.when && q.matrix == r.matrix && q.loop == r.loop && q.loopVar == r.loopVar
    && q.command.refreshOnly == r.command.refreshOnly && q.command.become == r.command.become
    && q.command.retries == r.command.retries && q.command.retryDelaySeconds == r.command.retryDelaySeconds
    && q.command.retryJitterSeconds == r.command.retryJitterSeconds
  }

  /** With variables, every text and every list entry has its tokens replaced, each in its own place. */
  lemma VarsReachEveryText(r: Resource, vars: Vars)
    requires vars != map[]
    ensures var q := ApplyVars(r, vars);
      && SameRest(r, q) && |Texts(q)| == |Texts(r)| && |Lists(q)| == |Lists(r)|
      && (forall i :: 0 <= i < |Texts(r)| ==> Texts(q)[i] == Replace(Texts(r)[i], vars))
      && (forall i :: 0 <= i < |Lists(r)| ==> |Lists(q)[i]| == |Lists(r)[i]|)
      && (forall i, j :: 0 <= i < |Lists(r)| && 0 <= j < |Lists(r)[i]| ==> Lists(q)[i][j] == Replace(Lists(r)[i][j], vars))
  {
    hide Replace, Texts, Lists, ApplyVars;
    TextsReached(r, vars);
    ListsReached(r, vars);
  }

  lemma TextsReached(r: Resource, vars: Vars)
    requires vars != map[]
    ensures var q := ApplyVars(r, vars); SameRest(r, q) && Texts(q) == ReplaceEach(Texts(r), vars)
  {
    hide Replace;
    assert |vars| != 0;
  }

  lemma ListsReached(r: Resource, vars: Vars)
    requires vars != map[]
    ensures var a, b := Lists(r), Lists(ApplyVars(r, vars));
      |b| == |a| && forall i :: 0 <= i < |a| ==> b[i] == ReplaceEach(a[i], vars)
  {
    hide Replace, ReplaceEach;
    assert |vars| != 0;
  }

  lemma {:induction false} SpaceRunOf(sp: string, t: string)
    requires (forall i :: 0 <= i < |sp| ==> IsPatternSpace(sp[i])) && (t == "" || !IsPatternSpace(t[0]))
    ensures SpaceRun(sp + t) == |sp| && (sp + t)[|sp|..] == t
  {
    if sp == "" {
      assert sp + t == t;
    } else {
      assert (sp + t)[1..] == sp[1..] + t;
      SpaceRunOf(sp[1..], t);
    }
  }

  lemma {:induction false} NameRunOf(name: string, t: string)
    requires (forall i :: 0 <= i < |name| ==> IsNameChar(name[i])) && (t == "" || !IsNameChar(t[0]))
    ensures NameRun(name + t) == |name| && (name + t)[|name|..] == t && (name + t)[..|name|] == name
  {
    if name == "" {
      assert name + t == t;
    } else {
      assert (name + t)[1..] == name[1..] + t;
      NameRunOf(name[1..], t);
    }
  }

  /** The text of a token: two braces, white space, a name, white space, two braces. */
  function Token(sp: string, name: string, pad: string): string {
    "{{" + (sp + (name + (pad + "}}")))
  }

  predicate IsTokenOf(sp: string, name: string, pad: string) {
    && name != "" && (forall i :: 0 <= i < |name| ==> IsNameChar(name[i]))
    && (forall i :: 0 <= i < |sp| ==> IsPatternSpace(sp[i])) && (forall i :: 0 <= i < |pad| ==> IsPatternSpace(pad[i]))
  }

  lemma TokenRead(sp: string, name: string, pad: string, rest: string)
    requires IsTokenOf(sp, name, pad)
    ensures TokenAt(Token(sp, name, pad) + rest) == (|Token(sp, name, pad)|, name)
    ensures (Token(sp, name, pad) + rest)[|Token(sp, name, pad)|..] == rest
  {
    hide SpaceRun, NameRun, TokenAt, Token, IsPatternSpace, IsNameChar;
    var d := "}}" + rest;
    var c := pad + d;
    var b := name + c;
    TokenSplit(sp, name, pad, rest);
    TokenHeads(sp, name, pad, rest);
    SpaceRunOf(sp, b);
    NameRunOf(name, c);
    SpaceRunOf(pad, d);
    TokenShape(Token(sp, name, pad) + rest, sp + b, b, c, d, name);
  }

  lemma TokenHeads(sp: string, name: string, pad: string, rest: string)
    requires IsTokenOf(sp, name, pad)
    ensures var d := "}}" + rest;
      var c := pad + d;
      var b := name + c;
      && !IsPatternSpace(b[0]) && !IsNameChar(c[0]) && !IsPatternSpace(d[0]) && d[0] == '}' && d[1] == '}'
  {
    var c := pad + ("}}" + rest);
    assert (name + c)[0] == name[0];
    assert c[0] == if pad == "" then '}' else pad[0];
  }

  lemma TokenSplit(sp: string, name: string, pad: string, rest: string)
    ensures var s := Token(sp, name, pad) + rest;
      && |s| >= 4 && s[2..] == sp + (name + (pad + ("}}" + rest)))
      && s[0] == '{' && s[1] == '{' && s[|Token(sp, name, pad)|..] == rest && |s| == |Token(sp, name, pad)| + |rest|
  {}

  lemma TokenShape(s: string, a: string, b: string, c: string, d: string, name: string)
    requires |s| >= 2 && s[0] == '{' && s[1] == '{' && s[2..] == a && a[SpaceRun(a)..] == b
    requires NameRun(b) == |name| && b[..|name|] == name && b[|name|..] == c && c[SpaceRun(c)..] == d
    requires name != "" && |d| >= 2 && d[0] == '}' && d[1] == '}'
    ensures TokenAt(s) == (|s| - |d| + 2, name)
  {
    hide SpaceRun, NameRun;
  }

  lemma {:induction false} ReplaceAfter(pre: string, x: string, vars: Vars)
    requires '{' !in pre
    ensures Replace(pre + x, vars) == pre + Replace(x, vars)
  {
    hide TokenAt, Replace;
    if pre == "" {
      assert pre + x == x && pre + Replace(x, vars) == Replace(x, vars);
    } else {
      ReplaceStep(pre + x, vars);
      assert (pre + x)[1..] == pre[1..] + x;
      ReplaceAfter(pre[1..], x, vars);
      assert pre + Replace(x, vars) == [pre[0]] + (pre[1..] + Replace(x, vars));
    }
  }

  lemma ReplaceStep(s: string, vars: Vars)
    requires s != "" && s[0] != '{'
    ensures Replace(s, vars) == [s[0]] + Replace(s[1..], vars)
  {
    hide TokenAt;
    NoBraceNoToken(s);
  }

  lemma NoBraceNoToken(s: string)
    requires s != "" && s[0] != '{'
    ensures TokenAt(s).0 == 0
  {}

  /** A token is replaced by its variable's value, or by nothing if there is none, and the text around it stays. */
  lemma TokenReplaced(pre: string, sp: string, name: string, pad: string, rest: string, vars: Vars)
    requires '{' !in pre && IsTokenOf(sp, name, pad)
    ensures Replace(pre + (Token(sp, name, pad) + rest), vars) ==
            pre + ((if name in vars then vars[name] else "") + Replace(rest, vars))
  {
    hide TokenAt, Token;
    ReplaceAfter(pre, Token(sp, name, pad) + rest, vars);
    TokenRead(sp, name, pad, rest);
    TokenLong(sp, name, pad);
  }

  lemma TokenLong(sp: string, name: string, pad: string)
    ensures |Token(sp, name, pad)| >= 4
  {}

  // ------------------------------------------------------------ conditions

  /** Position of the first occurrence of a two-character operator, or -1. */
  function Find(s: string, op: string): (i: int)
    requires |op| == 2
    ensures -1 <= i <= |s| - 2 || i == -1
  {
    if |s| < 2 then -1
    else if s[..2] == op then 0
    else var n := Find(s[1..], op); if n == -1 then -1 else n + 1
  }

  function Operand(token: string, vars: Vars): string {
    var t := TrimSpace(token);
    if |t| >= 2 && ((t[0] == '\'' && t[|t| - 1] == '\'') || (t[0] == '"' && t[|t| - 1] == '"')) then t[1..|t| - 1]
    else if t != "" && t in vars then vars[t]
    else t
  }

  predicate WhenHolds(when: string, vars: Vars) {
    var expr := TrimSpace(when);
    var lower := ToLower(expr);
    if expr == "" || lower in ["true", "1", "yes", "on"] then true
    else if lower in ["false", "0", "no", "off"] then false
    else if Find(expr, "==") >= 0 then
      var i := Find(expr, "==");
      Operand(expr[..i], vars) == Operand(expr[i + 2..], vars)
    else if Find(expr, "!=") >= 0 then
      var i := Find(expr, "!=");
      Operand(expr[..i], vars) != Operand(expr[i + 2..], vars)
    else
      Norm(Operand(expr, vars)) !in ["", "0", "false", "no", "off"]
  }

  lemma {:induction false} FindAt(l: string, op: string, r: string)
    requires |op| == 2 && op[0] !in l
    ensures Find(l + op + r, op) == |l|
  {
    var s := l + op + r;
    if l == "" {
      assert s[..2] == op;
    } else {
      assert s[0] == l[0] && s[..2][0] == s[0];
      assert s[1..] == l[1..] + op + r;
      FindAt(l[1..], op, r);
    }
  }

  lemma {:induction false} FindNone(s: string)
    requires forall i :: 0 <= i < |s| - 1 ==> s[i] != '=' || s[i + 1] != '='
    ensures Find(s, "==") == -1
  {
    if |s| >= 2 {
      assert s[..2][0] == s[0] && s[..2][1] == s[1];
      FindNone(s[1..]);
    }
  }

  lemma NotAWord(s: string, i: nat)
    requires i < |s| && s[i] == '='
    ensures ToLower(s) !in ["true", "1", "yes", "on"] && ToLower(s) !in ["false", "0", "no", "off"]
  {
    assert ToLower(s)[i] == '=';
  }

  /** A comparison holds exactly when its sides are equal, or for the other operator when they differ. */
  lemma ComparisonHolds(l: string, r: string, vars: Vars)
    requires '=' !in l && '!' !in l && '=' !in r
    requires (l != "" ==> !IsSpace(l[0])) && (r != "" ==> !IsSpace(r[|r| - 1]))
    ensures WhenHolds(l + "==" + r, vars) <==> Operand(l, vars) == Operand(r, vars)
    ensures WhenHolds(l + "!=" + r, vars) <==> Operand(l, vars) != Operand(r, vars)
  {
    hide TrimSpace, Operand, Find, WhenHolds, Trimmed;
    Framed(l, "==", r);
    Framed(l, "!=", r);
    FindAt(l, "==", r);
    FindAt(l, "!=", r);
    OneEquals(l, r);
    NotAWord(l + "==" + r, |l|);
    NotAWord(l + "!=" + r, |l| + 1);
    Compared(l + "==" + r, l, r, true, vars);
    Compared(l + "!=" + r, l, r, false, vars);
  }

  lemma Framed(l: string, op: string, r: string)
    requires |op| == 2 && !IsSpace(op[0]) && !IsSpace(op[1])
    requires (l != "" ==> !IsSpace(l[0])) && (r != "" ==> !IsSpace(r[|r| - 1]))
    ensures var e := l + op + r; Trimmed(e) && e != "" && e[..|l|] == l && e[|l| + 2..] == r && e[|l|] == op[0] && e[|l| + 1] == op[1]
  {
    var e := l + op + r;
    assert e[0] == (if l == "" then op[0] else l[0]) && e[|e| - 1] == if r == "" then op[1] else r[|r| - 1];
  }

  lemma OneEquals(l: string, r: string)
    requires '=' !in l && '=' !in r
    ensures Find(l + "!=" + r, "==") == -1
  {
    var d := l + "!=" + r;
    assert forall i :: 0 <= i < |d| ==> (d[i] == '=' <==> i == |l| + 1);
    FindNone(d);
  }

  lemma Compared(e: string, l: string, r: string, same: bool, vars: Vars)
    requires Trimmed(e) && e != "" && |e| == |l| + 2 + |r| && e[..|l|] == l && e[|l| + 2..] == r
    requires ToLower(e) !in ["true", "1", "yes", "on"] && ToLower(e) !in ["false", "0", "no", "off"]
    requires if same then Find(e, "==") == |l| else Find(e, "==") == -1 && Find(e, "!=") == |l|
    ensures WhenHolds(e, vars) <==> (Operand(l, vars) == Operand(r, vars)) == same
  {
    hide TrimSpace, Operand, Find, Trimmed;
  }

  /** An operand in quotes stands for what is between them, a variable for its value, anything else for itself. */
  lemma OperandMeaning(x: string, vars: Vars)
    ensures Operand("'" + x + "'", vars) == x && Operand("\"" + x + "\"", vars) == x
    ensures Trimmed(x) && x != "" && x[0] != '\'' && x[0] != '"' ==> Operand(x, vars) == if x in vars then vars[x] else x
  {
    hide TrimSpace;
    var a, b := "'" + x + "'", "\"" + x + "\"";
    assert a[0] == '\'' && a[|a| - 1] == '\'' && a[1..|a| - 1] == x;
    assert b[0] == '"' && b[|b| - 1] == '"' && b[1..|b| - 1] == x;
    assert Trimmed(a) && Trimmed(b);
  }

  // ------------------------------------------------------------ id suffixes

  function Join(parts: seq<string>): string {
    if parts == [] then ""
    else if |parts| == 1 then parts[0]
    else parts[0] + "-" + Join(parts[1..])
  }

  function SuffixParts(keys: seq<string>, vars: Vars): seq<string>
    requires KeysIn(keys, vars)
  {
    if keys == [] then []
    else [Sanitize(keys[0]), Sanitize(vars[keys[0]])] + SuffixParts(keys[1..], vars)
  }

  ghost function AppendSuffix(id: string, vars: Vars): string {
    var keys := SortedElems(vars.Keys);
    KeysInElems(keys, vars);
    Join([Sanitize(id)] + SuffixParts(keys, vars))
  }

  /** The part of a generated id that follows the base. */
  function SuffixText(keys: seq<string>, vars: Vars): string
    requires KeysIn(keys, vars)
  {
    if keys == [] then ""
    else ("-" + Sanitize(keys[0]) + "-") + (Sanitize(vars[keys[0]]) + SuffixText(keys[1..], vars))
  }

  lemma KeysInElems(keys: seq<string>, c: Vars)
    requires Elems(keys) == c.Keys
    ensures KeysIn(keys, c)
  {
    assert forall k :: k in keys ==> k in Elems(keys);
  }

  lemma JoinCons(x: string, parts: seq<string>)
    requires parts != []
    ensures Join([x] + parts) == x + "-" + Join(parts)
  {
    assert ([x] + parts)[1..] == parts;
  }

  lemma {:induction false} JoinSuffix(base: string, keys: seq<string>, vars: Vars)
    requires KeysIn(keys, vars)
    ensures Join([base] + SuffixParts(keys, vars)) == base + SuffixText(keys, vars)
    decreases |keys|
  {
    hide Sanitize;
    if keys == [] {
      assert [base] + [] == [base] && base + "" == base;
    } else {
      var k, v, rest := Sanitize(keys[0]), Sanitize(vars[keys[0]]), SuffixParts(keys[1..], vars);
      var tail := SuffixText(keys[1..], vars);
      assert [k, v] + rest == [k] + ([v] + rest);
      JoinCons(base, [k] + ([v] + rest));
      JoinCons(k, [v] + rest);
      JoinSuffix(v, keys[1..], vars);
      assert base + "-" + (k + "-" + (v + tail)) == base + (("-" + k + "-") + (v + tail));
    }
  }

  predicate DashFree(s: string) {
    forall i :: 0 <= i < |s| ==> s[i] != '-'
  }

  predicate AtDash(s: string) {
    s == "" || s[0] == '-'
  }

  lemma TokenCut(s: string, t: string, x: string, y: string)
    requires DashFree(s) && DashFree(t) && AtDash(x) && AtDash(y) && s + x == t + y
    ensures s == t && x == y
  {
    NoLonger(s, t, x, y);
    NoLonger(t, s, y, x);
    assert s == (s + x)[..|s|] && t == (t + y)[..|t|];
    assert x == (s + x)[|s|..] && y == (t + y)[|t|..];
  }

  lemma NoLonger(s: string, t: string, x: string, y: string)
    requires DashFree(t) && AtDash(x) && s + x == t + y
    ensures |t| <= |s|
  {
    AppendedAt(s, x, |s|);
    AppendedAt(t, y, |s|);
  }

  lemma PrefixCut(p: string, x: string, y: string)
    requires p + x == p + y
    ensures x == y
  {
    assert x == (p + x)[|p|..] && y == (p + y)[|p|..];
  }

  /** All but the last. */
  function Front(keys: seq<string>): seq<string> {
    if keys == [] then [] else keys[..|keys| - 1]
  }

  /** Equal suffixes over the same keys carry the same value tokens, when no token but the last holds a dash. */
  lemma {:induction false} SuffixCancel(keys: seq<string>, c: Vars, d: Vars)
    requires KeysIn(keys, c) && KeysIn(keys, d)
    requires forall k :: k in Front(keys) && k in keys ==> DashFree(Sanitize(c[k])) && DashFree(Sanitize(d[k]))
    requires SuffixText(keys, c) == SuffixText(keys, d)
    ensures forall k :: k in keys ==> Sanitize(c[k]) == Sanitize(d[k])
  {
    hide Sanitize, DashFree;
    if keys != [] {
      var k := keys[0];
      var s, t := Sanitize(c[k]), Sanitize(d[k]);
      var x, y := SuffixText(keys[1..], c), SuffixText(keys[1..], d);
      PrefixCut("-" + Sanitize(k) + "-", s + x, t + y);
      SuffixAtDash(keys[1..], c);
      SuffixAtDash(keys[1..], d);
      if |keys| == 1 {
        assert s + x == s && t + y == t;
      } else {
        assert keys[..|keys| - 1][0] == k;
        TokenCut(s, t, x, y);
        assert Front(keys) == [k] + Front(keys[1..]);
        SuffixCancel(keys[1..], c, d);
      }
      assert keys == [k] + keys[1..];
    }
  }

  lemma SuffixAtDash(keys: seq<string>, c: Vars)
    requires KeysIn(keys, c)
    ensures AtDash(SuffixText(keys, c))
  {}

  ghost predicate IdsDistinct(id: string, cs: seq<Vars>) {
    forall c, d :: c in cs && d in cs && c != d ==> AppendSuffix(id, c) != AppendSuffix(id, d)
  }

  ghost predicate TokensDashFree(keys: seq<string>, m: Matrix) {
    forall k, v :: k in keys && k in m && v in m[k] ==> DashFree(Sanitize(v))
  }

  ghost predicate TokensDistinct(keys: seq<string>, m: Matrix) {
    forall k, v, w :: k in keys && k in m && v in m[k] && w in m[k] && v != w ==> Sanitize(v) != Sanitize(w)
  }

  lemma SuffixOf(id: string, keys: seq<string>, c: Vars)
    requires Ascending(keys) && c.Keys == Elems(keys)
    ensures KeysIn(keys, c) && AppendSuffix(id, c) == Sanitize(id) + SuffixText(keys, c)
  {
    AscendingUnique(keys, SortedElems(c.Keys));
    KeysInElems(keys, c);
    JoinSuffix(Sanitize(id), keys, c);
  }

  lemma SameTokensSameSuffix(keys: seq<string>, c: Vars, d: Vars)
    requires KeysIn(keys, c) && KeysIn(keys, d) && forall k :: k in keys ==> Sanitize(c[k]) == Sanitize(d[k])
    ensures SuffixText(keys, c) == SuffixText(keys, d)
  {
    hide Sanitize;
    if keys != [] { SameTokensSameSuffix(keys[1..], c, d); }
  }

  /**
   When no value token but those of the last key holds a dash: the ids generated for all assignments are pairwise
   distinct exactly when no key has two values with the same token.
   */
  lemma IdsDistinctIff(id: string, keys: seq<string>, m: Matrix)
    requires Ascending(keys) && (forall k :: k in keys ==> k in m && m[k] != []) && TokensDashFree(Front(keys), m)
    ensures IdsDistinct(id, Product(keys, m)) <==> TokensDistinct(keys, m)
  {
    hide Product;
    AscendingSortId(keys);
    if TokensDistinct(keys, m) {
      forall c, d | c in Product(keys, m) && d in Product(keys, m) && AppendSuffix(id, c) == AppendSuffix(id, d)
        ensures c == d
      {
        ProductMembers(keys, m, c);
        ProductMembers(keys, m, d);
        DistinctTokensSeparate(id, keys, m, c, d);
      }
    } else {
      SharedTokensCollide(id, keys, m);
    }
  }

  /** Dashes or not, a key with two values of the same token makes ids collide. */
  lemma SharedTokensCollide(id: string, keys: seq<string>, m: Matrix)
    requires Ascending(keys) && (forall k :: k in keys ==> k in m && m[k] != []) && !TokensDistinct(keys, m)
    ensures !IdsDistinct(id, Product(keys, m))
  {
    hide IdsDistinct, Product;
    AscendingSortId(keys);
    var k, v, w :| k in keys && v in m[k] && w in m[k] && v != w && Sanitize(v) == Sanitize(w);
    SharedTokenCollides(id, keys, m, k, v, w);
  }

  lemma DistinctTokensSeparate(id: string, keys: seq<string>, m: Matrix, c: Vars, d: Vars)
    requires Ascending(keys) && Total(keys, m, c) && Total(keys, m, d)
    requires TokensDashFree(Front(keys), m) && TokensDistinct(keys, m) && AppendSuffix(id, c) == AppendSuffix(id, d)
    ensures c == d
  {
    hide Sanitize, AppendSuffix;
    SuffixOf(id, keys, c);
    SuffixOf(id, keys, d);
    PrefixCut(Sanitize(id), SuffixText(keys, c), SuffixText(keys, d));
    SuffixCancel(keys, c, d);
    forall k | k in c ensures k in d && c[k] == d[k] { assert k in Elems(keys); }
  }

  lemma SharedTokenCollides(id: string, keys: seq<string>, m: Matrix, k: string, v: string, w: string)
    requires Ascending(keys) && NoDup(keys) && (forall j :: j in keys ==> j in m && m[j] != [])
    requires k in keys && v in m[k] && w in m[k] && v != w && Sanitize(v) == Sanitize(w)
    ensures !IdsDistinct(id, Product(keys, m))
  {
    hide Sanitize, Product, AppendSuffix;
    ProductNonEmpty(keys, m);
    var b := Product(keys, m)[0];
    ProductMembers(keys, m, b);
    var c, d := b[k := v], b[k := w];
    assert k in Elems(keys);
    assert c.Keys == b.Keys == d.Keys;
    ProductMembers(keys, m, c);
    ProductMembers(keys, m, d);
    SuffixOf(id, keys, c);
    SuffixOf(id, keys, d);
    SameTokensSameSuffix(keys, c, d);
    assert c[k] != d[k];
  }

  predicate AllAlnum(s: string) {
    s != "" && forall i :: 0 <= i < |s| ==> IsAlnum(s[i])
  }

  /** Values of lower-case letters and digits only always give distinct ids. */
  lemma AlnumValuesGiveDistinctIds(id: string, keys: seq<string>, m: Matrix)
    requires Ascending(keys) && forall k :: k in keys ==> k in m && m[k] != [] && forall v :: v in m[k] ==> AllAlnum(v)
    ensures IdsDistinct(id, Product(keys, m))
  {
    hide Sanitize, IdsDistinct, Product;
    forall k, v | k in keys && k in m && v in m[k] ensures Sanitize(v) == v && DashFree(v) { AlnumToken(v); }
    IdsDistinctIff(id, keys, m);
  }

  const CLASH: Matrix := map["a" := ["x", "x-b-y"], "b" := ["y-b-z", "z"]]
  const CLASH_ONE: Vars := map["a" := "x", "b" := "y-b-z"]
  const CLASH_TWO: Vars := map["a" := "x-b-y", "b" := "z"]

  lemma ClashTokens()
    ensures Sanitize("a") == "a" && Sanitize("b") == "b" && Sanitize("x") == "x" && Sanitize("z") == "z"
    ensures Sanitize("x-b-y") == "x-b-y" && Sanitize("y-b-z") == "y-b-z"
  {
    hide Sanitize;
    TokenFixed("a");
    TokenFixed("b");
    TokenFixed("x");
    TokenFixed("z");
    TokenFixed("x-b-y");
    TokenFixed("y-b-z");
  }

  lemma ClashSuffix(c: Vars)
    requires KeysIn(["a", "b"], c)
    ensures SuffixText(["a", "b"], c)
         == ("-" + Sanitize("a") + "-") + (Sanitize(c["a"]) + (("-" + Sanitize("b") + "-") + (Sanitize(c["b"]) + "")))
  {
    hide Sanitize;
    assert ["a", "b"][1..] == ["b"] && ["b"][1..] == [];
    assert SuffixText(["b"], c) == ("-" + Sanitize("b") + "-") + (Sanitize(c["b"]) + "");
  }

  lemma ClashAssignments()
    ensures Total(["a", "b"], CLASH, CLASH_ONE) && Total(["a", "b"], CLASH, CLASH_TWO) && CLASH_ONE != CLASH_TWO
  {
    assert Elems(["a", "b"]) == {"a", "b"};
    assert CLASH_ONE["a"] != CLASH_TWO["a"];
  }

  lemma ClashSuffixes()
    ensures KeysIn(["a", "b"], CLASH_ONE) && KeysIn(["a", "b"], CLASH_TWO)
    ensures SuffixText(["a", "b"], CLASH_ONE) == SuffixText(["a", "b"], CLASH_TWO)
  {
    hide Sanitize, SuffixText;
    ClashTokens();
    ClashSuffix(CLASH_ONE);
    ClashSuffix(CLASH_TWO);
    assert "x" + (("-" + "b" + "-") + ("y-b-z" + "")) == "x-b-y" + (("-" + "b" + "-") + ("z" + ""));
  }

  lemma ClashTokensDistinct()
    ensures TokensDistinct(["a", "b"], CLASH)
  {
    hide Sanitize;
    ClashTokens();
  }

  /** With dashes in the values distinct tokens are not enough: two assignments share one id. */
  lemma DashedValuesCanClash(id: string)
    ensures Total(["a", "b"], CLASH, CLASH_ONE) && Total(["a", "b"], CLASH, CLASH_TWO) && CLASH_ONE != CLASH_TWO
    ensures TokensDistinct(["a", "b"], CLASH)
    ensures AppendSuffix(id, CLASH_ONE) == AppendSuffix(id, CLASH_TWO)
  {
    hide Sanitize, AppendSuffix, SuffixText, Total, TokensDistinct, KeysIn;
    ClashAssignments();
    ClashTokensDistinct();
    ClashSuffixes();
    assert Less("a", "b");
    SuffixOf(id, ["a", "b"], CLASH_ONE);
    SuffixOf(id, ["a", "b"], CLASH_TWO);
  }

  // ------------------------------------------------------------- expansion

  function LoopKey(r: Resource): string {
    if Blank(r.loopVar) then "item" else TrimSpace(r.loopVar)
  }

  /** The matrix with the loop folded in, unless the matrix has that key already. */
  function EffectiveMatrix(r: Resource): Matrix {
    if r.loop != [] && LoopKey(r) !in r.matrix then r.matrix[LoopKey(r) := r.loop] else r.matrix
  }

  predicate IsExpanded(r: Resource) {
    (exists k :: k in r.matrix && r.matrix[k] != []) || (r.loop != [] && LoopKey(r) !in r.matrix)
  }

  /** One resource instance for one assignment. */
  ghost function Instance(r: Resource, vars: Vars): Resource {
    var bare := r.(when := "", matrix := map[], loop := [], loopVar := "");
    var res := ApplyVars(bare, vars);
    if IsExpanded(r) && TrimSpace(res.id) == TrimSpace(r.id) then res.(id := AppendSuffix(res.id, vars)) else res
  }

  ghost function Instances(r: Resource, combos: seq<Vars>): seq<Resource> {
    if combos == [] then []
    else
      var vars := combos[|combos| - 1];
      Instances(r, combos[..|combos| - 1]) + (if WhenHolds(r.when, vars) then [Instance(r, vars)] else [])
  }

  ghost function ExpandOne(r: Resource, order: seq<string>): seq<Resource>
    requires KeysWithin(EffectiveMatrix(r), order)
  {
    var combos := Combinations(EffectiveMatrix(r), order);
    Instances(r, if combos == [] then [map[]] else combos)
  }

  ghost predicate OrdersFor(rs: seq<Resource>, orders: seq<seq<string>>) {
    |orders| == |rs| && forall i :: 0 <= i < |rs| ==>
      IsOrder(EffectiveMatrix(rs[i]), orders[i]) && KeysWithin(EffectiveMatrix(rs[i]), orders[i])
  }

  /** All resources in turn, each with the key order its map happened to be visited in. */
  ghost function ExpandAll(rs: seq<Resource>, orders: seq<seq<string>>): seq<Resource>
    requires OrdersFor(rs, orders)
  {
    if rs == [] then []
    else
      var n := |rs| - 1;
      ExpandAll(rs[..n], orders[..n]) + ExpandOne(rs[n], orders[n])
  }

  method ExpansionMatrix(r: Resource) returns (m: Matrix, expanded: bool)
    ensures m == EffectiveMatrix(r) && expanded == IsExpanded(r)
  {
    m, expanded := map[], false;
    var rest := r.matrix.Keys;
    while rest != {}
      invariant rest <= r.matrix.Keys && m.Keys == r.matrix.Keys - rest
      invariant forall k :: k in m ==> m[k] == r.matrix[k]
      invariant expanded <==> exists k :: k in m && m[k] != []
    {
      var key :| key in rest;
      ghost var before := m;
      rest, m := rest - {key}, m[key := r.matrix[key]];
      if r.matrix[key] != [] { assert m[key] != []; expanded := true; }
      assert forall k :: k in before ==> k in m && m[k] == before[k];
    }
    assert m == r.matrix;
    if r.loop != [] {
      var key := TrimSpace(r.loopVar);
      if key == "" { key := "item"; }
      if key !in m { m, expanded := m[key := r.loop], true; }
    }
  }

  lemma SuffixPartsNext(keys: seq<string>, vars: Vars, i: nat, parts: seq<string>)
    requires KeysIn(keys, vars) && i < |keys|
    ensures parts + SuffixParts(keys[i..], vars)
         == (parts + [Sanitize(keys[i]), Sanitize(vars[keys[i]])]) + SuffixParts(keys[i + 1..], vars)
  {
    hide Sanitize;
    assert keys[i..][1..] == keys[i + 1..];
  }

  lemma SuffixPartsEnd(keys: seq<string>, vars: Vars)
    requires KeysIn(keys, vars)
    ensures keys[0..] == keys && SuffixParts(keys[|keys|..], vars) == []
  {}

  method AppendMatrixSuffix(id: string, vars: Vars) returns (out: string)
    ensures out == AppendSuffix(id, vars)
  {
    hide Sanitize, SuffixParts, Ascending, Elems;
    var keys := SortKeys(vars.Keys);
    KeysInElems(keys, vars);
    var base := SanitizeToken(id);
    var parts := [base];
    SuffixPartsEnd(keys, vars);
    for i := 0 to |keys|
      invariant parts + SuffixParts(keys[i..], vars) == [Sanitize(id)] + SuffixParts(keys, vars)
    {
      var a := SanitizeToken(keys[i]);
      var b := SanitizeToken(vars[keys[i]]);
      SuffixPartsNext(keys, vars, i, parts);
      parts := parts + [a, b];
    }
    assert parts + [] == parts;
    assert parts == [Sanitize(id)] + SuffixParts(keys, vars);
    out := Join(parts);
  }

  method ExpandCollection(rs: seq<Resource>) returns (out: seq<Resource>, ghost orders: seq<seq<string>>)
    ensures OrdersFor(rs, orders) && out == ExpandAll(rs, orders)
  {
    hide ExpandOne, EffectiveMatrix, IsOrder, KeysWithin;
    out, orders := [], [];
    for i := 0 to |rs|
      invariant OrdersFor(rs[..i], orders) && out == ExpandAll(rs[..i], orders)
    {
      var more, order := ExpandResource(rs[i]);
      assert rs[..i + 1][..i] == rs[..i] && (orders + [order])[..i] == orders;
      out, orders := out + more, orders + [order];
    }
    assert rs[..|rs|] == rs;
  }

  method ExpandResource(r: Resource) returns (out: seq<Resource>, ghost order: seq<string>)
    ensures IsOrder(EffectiveMatrix(r), order) && KeysWithin(EffectiveMatrix(r), order)
    ensures out == ExpandOne(r, order)
  {
    hide EffectiveMatrix, IsExpanded, Combinations, WhenHolds, ApplyVars, AppendSuffix;
    var m, expanded := ExpansionMatrix(r);
    var combos;
    combos, order := MatrixCombinations(m);
    if |combos| == 0 { combos := [map[]]; }
    out := [];
    for i := 0 to |combos|
      invariant out == Instances(r, combos[..i])
    {
      assert combos[..i + 1][..i] == combos[..i];
      if WhenHolds(r.when, combos[i]) {
        var res := ApplyVars(r.(when := "", matrix := map[], loop := [], loopVar := ""), combos[i]);
        if expanded && TrimSpace(res.id) == TrimSpace(r.id) {
          var id := AppendMatrixSuffix(res.id, combos[i]);
          res := res.(id := id);
        }
        out := out + [res];
      }
    }
    assert combos[..|combos|] == combos;
  }

  // ------------------------------------------------- properties of expansion

  /** A resource with nothing left to expand. */
  predicate Flat(r: Resource) {
    r.when == "" && r.matrix == map[] && r.loop == [] && r.loopVar == ""
  }

  lemma {:induction false} InstancesFlat(r: Resource, combos: seq<Vars>)
    ensures forall x :: x in Instances(r, combos) ==> Flat(x)
  {
    hide Replace, AppendSuffix, WhenHolds;
    if combos != [] { InstancesFlat(r, combos[..|combos| - 1]); }
  }

  lemma NoKeysNoOrder(order: seq<string>)
    ensures Elems(order) == {} ==> order == []
  {
    if order != [] { assert order[0] in Elems(order); }
  }

  lemma FlatExpandsToItself(r: Resource, order: seq<string>)
    requires Flat(r) && KeysWithin(EffectiveMatrix(r), order) && IsOrder(EffectiveMatrix(r), order)
    ensures ExpandOne(r, order) == [r]
  {
    NoKeysNoOrder(order);
    assert Names([]) == [];
    var none: seq<Vars> := [map[]];
    assert none[..0] == [];
    assert !IsExpanded(r);
    assert Instances(r, none) == [] + [Instance(r, map[])];
  }

  lemma {:induction false} ExpandAllFlat(rs: seq<Resource>, orders: seq<seq<string>>)
    requires OrdersFor(rs, orders)
    ensures forall x :: x in ExpandAll(rs, orders) ==> Flat(x)
  {
    hide Flat, Instances, Combinations;
    if rs != [] {
      var n := |rs| - 1;
      ExpandAllFlat(rs[..n], orders[..n]);
      var combos := Combinations(EffectiveMatrix(rs[n]), orders[n]);
      InstancesFlat(rs[n], if combos == [] then [map[]] else combos);
    }
  }

  lemma {:induction false} FlatListExpandsToItself(rs: seq<Resource>, orders: seq<seq<string>>)
    requires OrdersFor(rs, orders) && forall x :: x in rs ==> Flat(x)
    ensures ExpandAll(rs, orders) == rs
  {
    hide Flat, ExpandOne;
    if rs != [] {
      var n := |rs| - 1;
      assert rs == rs[..n] + [rs[n]];
      FlatListExpandsToItself(rs[..n], orders[..n]);
      FlatExpandsToItself(rs[n], orders[n]);
    }
  }

  /** Expanding an expanded collection changes nothing, whatever the map orders. */
  lemma ExpansionIdempotent(rs: seq<Resource>, orders: seq<seq<string>>, again: seq<seq<string>>)
    requires OrdersFor(rs, orders) && OrdersFor(ExpandAll(rs, orders), again)
    ensures ExpandAll(ExpandAll(rs, orders), again) == ExpandAll(rs, orders)
  {
    ExpandAllFlat(rs, orders);
    FlatListExpandsToItself(ExpandAll(rs, orders), again);
  }

  /**
   An instance's id: the id with its tokens replaced, and, if something was expanded but the template left the id as it
   was, the id as a token followed by the variables and their values in order.
   */
  lemma InstanceIdExact(r: Resource, vars: Vars)
    ensures KeysIn(SortedElems(vars.Keys), vars)
    ensures var id := if vars == map[] then r.id else Replace(r.id, vars);
      Instance(r, vars).id ==
        if (exists k :: k in Rows(r) && Rows(r)[k] != []) && TrimSpace(id) == TrimSpace(r.id)
        then Sanitize(id) + SuffixText(SortedElems(vars.Keys), vars) else id
  {
    hide Replace, TrimSpace, IsExpanded, Sanitize, AppendSuffix, SuffixText;
    RowsAreEffective(r);
    var id := if vars == map[] then r.id else Replace(r.id, vars);
    SuffixOf(id, SortedElems(vars.Keys), vars);
    assert |vars| == 0 <==> vars == map[];
  }

  // ------------------------------------------------------------ loops and counts

  /** The variable a loop runs under. */
  function LoopName(r: Resource): string {
    if TrimSpace(r.loopVar) == "" then "item" else TrimSpace(r.loopVar)
  }

  /** What is expanded: the matrix, and the loop as one more row unless the matrix has its variable already. */
  function Rows(r: Resource): Matrix {
    if r.loop == [] || LoopName(r) in r.matrix then r.matrix else r.matrix[LoopName(r) := r.loop]
  }

  lemma RowsAreEffective(r: Resource)
    ensures EffectiveMatrix(r) == Rows(r)
    ensures IsExpanded(r) <==> exists k :: k in Rows(r) && Rows(r)[k] != []
  {
    hide TrimSpace;
    var m := Rows(r);
    if r.loop != [] && LoopName(r) !in r.matrix {
      assert m[LoopName(r)] != [];
    }
  }

  lemma SameInstances(r: Resource, q: Resource, combos: seq<Vars>)
    requires q == r.(matrix := q.matrix, loop := q.loop, loopVar := q.loopVar) && IsExpanded(q) == IsExpanded(r)
    ensures Instances(q, combos) == Instances(r, combos)
  {
    hide WhenHolds, IsExpanded, Replace, AppendSuffix;
    if combos != [] { SameInstances(r, q, combos[..|combos| - 1]); }
  }

  /** A loop is expanded exactly as a matrix row under its variable would be. */
  lemma LoopIsARow(r: Resource, order: seq<string>)
    requires r.loop != [] && LoopName(r) !in r.matrix && IsOrder(r.matrix[LoopName(r) := r.loop], order)
    ensures var q := r.(matrix := r.matrix[LoopName(r) := r.loop], loop := []);
      && KeysWithin(EffectiveMatrix(r), order) && KeysWithin(EffectiveMatrix(q), order)
      && ExpandOne(r, order) == ExpandOne(q, order)
  {
    hide EffectiveMatrix, IsExpanded, Instances, Combinations, TrimSpace;
    var q := r.(matrix := r.matrix[LoopName(r) := r.loop], loop := []);
    RowsAreEffective(r);
    RowsAreEffective(q);
    OrderKeys(Rows(r), order);
    var combos := Combinations(Rows(r), order);
    SameInstances(r, q, if combos == [] then [map[]] else combos);
  }

  /** A loop that is empty, or whose variable the matrix has already, has no effect. */
  lemma IdleLoop(r: Resource, order: seq<string>)
    requires (r.loop == [] || LoopName(r) in r.matrix) && IsOrder(r.matrix, order)
    ensures var q := r.(loop := [], loopVar := "");
      && KeysWithin(EffectiveMatrix(r), order) && KeysWithin(EffectiveMatrix(q), order)
      && ExpandOne(r, order) == ExpandOne(q, order)
  {
    hide EffectiveMatrix, IsExpanded, Instances, Combinations, TrimSpace;
    var q := r.(loop := [], loopVar := "");
    RowsAreEffective(r);
    RowsAreEffective(q);
    OrderKeys(Rows(r), order);
    var combos := Combinations(Rows(r), order);
    SameInstances(r, q, if combos == [] then [map[]] else combos);
  }

  lemma {:induction false} InstancePerAssignment(r: Resource, combos: seq<Vars>)
    requires Blank(r.when)
    ensures |Instances(r, combos)| == |combos|
    ensures forall i :: 0 <= i < |combos| ==> Instances(r, combos)[i] == Instance(r, combos[i])
  {
    hide Instance;
    if combos != [] { InstancePerAssignment(r, combos[..|combos| - 1]); }
  }

  /**
   Without a condition and with distinct names: one instance when there is nothing to expand or some name has no
   value, else as many as the product of the cleaned value counts, a loop's values being one of the factors.
   */
  lemma InstanceCount(r: Resource, order: seq<string>)
    requires Blank(r.when) && IsOrder(Rows(r), order) && KeysWithin(Rows(r), order) && DistinctNames(Rows(r))
    ensures var keys, values := Sort(Names(order)), Normalized(Rows(r), order);
      && KeysWithin(EffectiveMatrix(r), order)
      && (forall n :: n in keys ==> n in values)
      && |ExpandOne(r, order)| == (if !AllFilled(Rows(r)) || keys == [] then 1 else CountAll(keys, values))
      && (r.loop != [] && LoopName(r) !in r.matrix && AllFilled(Rows(r)) ==>
            LoopName(r) in keys && values[LoopName(r)] == CleanValues(r.loop))
  {
    hide EffectiveMatrix, Instances, Combinations, TrimSpace, Sort, Names, Normalized, CleanValues, AllFilled, LexAscending;
    RowsAreEffective(r);
    CombinationsMeaning(Rows(r), order);
    var combos := Combinations(Rows(r), order);
    InstancePerAssignment(r, if combos == [] then [map[]] else combos);
    if AllFilled(Rows(r)) && Sort(Names(order)) != [] { NonEmptyCount(Rows(r), order); }
    if r.loop != [] && LoopName(r) !in r.matrix { LoopNameTrims(r); }
  }

  lemma LoopNameTrims(r: Resource)
    ensures TrimSpace(LoopName(r)) == LoopName(r) && !Blank(LoopName(r))
  {
    assert Trimmed("item");
  }

  lemma NonEmptyCount(m: Matrix, order: seq<string>)
    requires IsOrder(m, order) && KeysWithin(m, order) && AllFilled(m) && Names(order) != []
    ensures Combinations(m, order) != []
  {
    hide AllFilled, SomeKeyEmpty, Normalized, Names, Sort;
    SameEmptiness(m, order);
    SortKeepsNames(order);
    NormalizedFilled(m, order);
    ProductNonEmpty(Sort(Names(order)), Normalized(m, order));
  }

  function Ids(rs: seq<Resource>): (r: seq<string>)
    ensures |r| == |rs| && forall i :: 0 <= i < |rs| ==> r[i] == rs[i].id
  {
    seq(|rs|, i requires 0 <= i < |rs| => rs[i].id)
  }

  lemma InstanceId(r: Resource, vars: Vars)
    requires TokenFree(r.id) && IsExpanded(r)
    ensures Instance(r, vars).id == AppendSuffix(r.id, vars)
  {
    hide Replace, AppendSuffix, IsExpanded, TrimSpace;
    ReplaceTokenFree(r.id, vars);
  }

  /** Every id comes from one of the assignments; distinct assignments with distinct ids stay distinct. */
  lemma {:induction false} InstancesDistinct(r: Resource, combos: seq<Vars>)
    requires TokenFree(r.id) && IsExpanded(r) && NoDup(combos) && IdsDistinct(r.id, combos)
    ensures NoDup(Ids(Instances(r, combos)))
    ensures forall x :: x in Instances(r, combos) ==> exists c :: c in combos && x.id == AppendSuffix(r.id, c)
  {
    hide AppendSuffix, IsExpanded, Instance, TokenFree, WhenHolds;
    if combos != [] {
      var front, c := combos[..|combos| - 1], combos[|combos| - 1];
      assert combos == front + [c];
      assert forall d :: d in front ==> d in combos && d != c;
      InstancesDistinct(r, front);
      InstanceId(r, c);
      forall x | x in Instances(r, front) ensures x.id != AppendSuffix(r.id, c) {}
    }
  }

  /** Without a condition there is one instance for each assignment. */
  lemma {:induction false} AllInstances(r: Resource, combos: seq<Vars>)
    requires TokenFree(r.id) && IsExpanded(r) && Blank(r.when)
    ensures |Instances(r, combos)| == |combos|
    ensures forall i :: 0 <= i < |combos| ==> Instances(r, combos)[i].id == AppendSuffix(r.id, combos[i])
  {
    hide AppendSuffix, IsExpanded, Instance, TokenFree;
    if combos != [] {
      AllInstances(r, combos[..|combos| - 1]);
      InstanceId(r, combos[|combos| - 1]);
    }
  }

  /** Repeated assignments, or different ones with the same id, show in the ids. */
  lemma InstancesDistinctIff(r: Resource, combos: seq<Vars>)
    requires TokenFree(r.id) && IsExpanded(r) && Blank(r.when)
    ensures NoDup(Ids(Instances(r, combos))) <==> NoDup(combos) && IdsDistinct(r.id, combos)
  {
    hide AppendSuffix, IsExpanded, Instances, TokenFree, Blank;
    AllInstances(r, combos);
    var ids := Ids(Instances(r, combos));
    if NoDup(combos) && IdsDistinct(r.id, combos) { InstancesDistinct(r, combos); }
    if NoDup(ids) {
      assert forall i, j :: 0 <= i < j < |combos| ==> ids[i] != ids[j];
      forall c, d | c in combos && d in combos && c != d ensures AppendSuffix(r.id, c) != AppendSuffix(r.id, d) {
        var i :| 0 <= i < |combos| && combos[i] == c;
        var j :| 0 <= j < |combos| && combos[j] == d;
        assert ids[i] != ids[j];
      }
    }
  }

  lemma OneInstance(r: Resource, vars: Vars)
    ensures NoDup(Ids(Instances(r, [vars])))
  {
    assert [vars][..0] == [];
    assert Instances(r, []) == [];
    assert |Instances(r, [vars])| <= 1;
  }

  /** A matrix with a filled key makes the resource one that is expanded. */
  lemma FilledIsExpanded(r: Resource, k: string)
    requires var m := EffectiveMatrix(r); k in m && CleanValues(m[k]) != []
    ensures IsExpanded(r)
  {
    var m := EffectiveMatrix(r);
    NoValuesNoClean();
    assert m[k] != [];
  }

  lemma NoValuesNoClean()
    ensures CleanValues([]) == []
  {}

  /** The names the instances differ in, each once. */
  ghost function UniqueNames(order: seq<string>): seq<string> {
    Uniq(Sort(Names(order)))
  }

  /** The assignments as a product over distinct names. */
  lemma ProductOfNames(m: Matrix, order: seq<string>)
    requires IsOrder(m, order) && KeysWithin(m, order) && AllFilled(m)
    ensures var keys, values := UniqueNames(order), Normalized(m, order);
      && Ascending(keys) && (forall n :: n in keys ==> n in values && values[n] != [])
      && (SharedSingle(m, order) && keys != [] ==> Combinations(m, order) == Product(keys, values))
      && (keys == [] ==> Combinations(m, order) == [])
  {
    hide AllFilled, SharedSingle, SingleRepeats, SomeKeyEmpty, Names, Normalized, Sort, Product;
    var names := Names(order);
    SameEmptiness(m, order);
    SortKeepsNames(order);
    SortSorted(names);
    UniqAscending(Sort(names));
    NormalizedFilled(m, order);
    SharedSingleIsSingleRepeats(m, order);
    SameMembersEmpty(names, UniqueNames(order));
    if SharedSingle(m, order) { ProductUniq(Sort(names), Normalized(m, order)); }
  }

  lemma SameMembersEmpty(a: seq<string>, b: seq<string>)
    requires forall n :: n in a <==> n in b
    ensures a == [] <==> b == []
  {
    if a != [] { assert a[0] in b; }
    if b != [] { assert b[0] in a; }
  }

  lemma NamesAreExpanded(r: Resource, order: seq<string>)
    requires var m := EffectiveMatrix(r); IsOrder(m, order) && KeysWithin(m, order) && AllFilled(m)
    requires UniqueNames(order) != []
    ensures IsExpanded(r)
  {
    hide IsExpanded, CleanValues;
    var m := EffectiveMatrix(r);
    SortKeepsNames(order);
    var n := UniqueNames(order)[0];
    assert n in UniqueNames(order) && n in Names(order);
    var k :| k in order && !Blank(k) && TrimSpace(k) == n;
    FilledIsExpanded(r, k);
  }

  /** The condition for distinct ids: shared names have one value, and no name has two values with one token. */
  ghost predicate Tellable(m: Matrix, order: seq<string>)
    requires KeysWithin(m, order)
  {
    SharedSingle(m, order) && TokensDistinct(UniqueNames(order), Normalized(m, order))
  }

  /** Value tokens of all names but the last hold no dash. */
  ghost predicate FrontDashFree(m: Matrix, order: seq<string>)
    requires KeysWithin(m, order)
  {
    TokensDashFree(Front(UniqueNames(order)), Normalized(m, order))
  }

  lemma CombinationIds(id: string, m: Matrix, order: seq<string>)
    requires IsOrder(m, order) && KeysWithin(m, order) && AllFilled(m) && UniqueNames(order) != []
    ensures var cs := Combinations(m, order);
      && cs != [] && (NoDup(cs) && IdsDistinct(id, cs) ==> Tellable(m, order))
      && (FrontDashFree(m, order) && Tellable(m, order) ==> NoDup(cs) && IdsDistinct(id, cs))
  {
    hide AllFilled, SharedSingle, UniqueNames, Normalized, IdsDistinct, Product, TokensDashFree, TokensDistinct;
    hide Combinations;
    NoRepetitionIff(m, order);
    ProductOfNames(m, order);
    if SharedSingle(m, order) {
      var keys, values := UniqueNames(order), Normalized(m, order);
      ProductNonEmpty(keys, values);
      if !TokensDistinct(keys, values) { SharedTokensCollide(id, keys, values); }
      if TokensDashFree(Front(keys), values) { IdsDistinctIff(id, keys, values); }
    } else {
      NoDupNone();
    }
  }

  lemma NoDupNone()
    ensures NoDup<Vars>([])
  {}

  /** Without a condition, ids are distinct only if some key has no values or the names are tellable, dashes or not. */
  lemma DistinctIdsAreTellable(r: Resource, order: seq<string>)
    requires var m := EffectiveMatrix(r); IsOrder(m, order) && KeysWithin(m, order)
    requires TokenFree(r.id) && Blank(r.when) && NoDup(Ids(ExpandOne(r, order)))
    ensures !AllFilled(EffectiveMatrix(r)) || Tellable(EffectiveMatrix(r), order)
  {
    hide EffectiveMatrix, IsExpanded, TokenFree, Blank, Instances, IdsDistinct, AllFilled, Tellable, FrontDashFree;
    hide UniqueNames, Combinations;
    var m := EffectiveMatrix(r);
    if AllFilled(m) {
      ProductOfNames(m, order);
      if UniqueNames(order) == [] {
        NamelessTellable(m, order);
      } else {
        NamesAreExpanded(r, order);
        CombinationIds(r.id, m, order);
        InstancesDistinctIff(r, Combinations(m, order));
      }
    }
  }

  /**
   Without a condition, and with no dash in the value tokens of any name but the last: the ids produced by expanding
   a resource whose id holds no template token are pairwise distinct exactly when some key has no values, or shared
   names have one value each and no name has two values with the same token.
   */
  lemma ExpandedIdsDistinctIff(r: Resource, order: seq<string>)
    requires var m := EffectiveMatrix(r); IsOrder(m, order) && KeysWithin(m, order) && FrontDashFree(m, order)
    requires TokenFree(r.id) && Blank(r.when)
    ensures NoDup(Ids(ExpandOne(r, order))) <==> !AllFilled(EffectiveMatrix(r)) || Tellable(EffectiveMatrix(r), order)
  {
    hide EffectiveMatrix, TokenFree, Blank, AllFilled, Tellable, FrontDashFree, ExpandOne;
    if NoDup(Ids(ExpandOne(r, order))) { DistinctIdsAreTellable(r, order); }
    if !AllFilled(EffectiveMatrix(r)) || Tellable(EffectiveMatrix(r), order) { ExpandedIdsDistinct(r, order); }
  }

  lemma NamelessTellable(m: Matrix, order: seq<string>)
    requires IsOrder(m, order) && KeysWithin(m, order) && UniqueNames(order) == []
    ensures Tellable(m, order)
  {
    hide Sort;
    SortKeepsNames(order);
    SameMembersEmpty(Names(order), UniqueNames(order));
  }

  /** Whatever the condition filters out, that is enough. */
  lemma ExpandedIdsDistinct(r: Resource, order: seq<string>)
    requires var m := EffectiveMatrix(r);
      IsOrder(m, order) && KeysWithin(m, order) && FrontDashFree(m, order) && (!AllFilled(m) || Tellable(m, order))
    requires TokenFree(r.id)
    ensures NoDup(Ids(ExpandOne(r, order)))
  {
    hide EffectiveMatrix, IsExpanded, TokenFree, Instances, IdsDistinct, AllFilled, Tellable, FrontDashFree;
    hide UniqueNames, Combinations;
    var m := EffectiveMatrix(r);
    OneInstance(r, map[]);
    if !AllFilled(m) {
      UnfilledIsEmpty(m, order);
    } else {
      ProductOfNames(m, order);
      if UniqueNames(order) != [] {
        NamesAreExpanded(r, order);
        CombinationIds(r.id, m, order);
        InstancesDistinct(r, Combinations(m, order));
      }
    }
  }

  ghost predicate AlnumValues(m: Matrix) {
    forall k, v :: k in m && !Blank(k) && v in CleanValues(m[k]) ==> AllAlnum(v)
  }

  lemma AlnumIsTellable(m: Matrix, order: seq<string>)
    requires IsOrder(m, order) && KeysWithin(m, order) && AlnumValues(m)
    ensures FrontDashFree(m, order) && (Tellable(m, order) <==> SharedSingle(m, order))
  {
    hide SharedSingle, UniqueNames, Normalized, AlnumValues;
    AlnumNormalized(m, order);
    AlnumTokens(UniqueNames(order), Normalized(m, order));
    AlnumTokens(Front(UniqueNames(order)), Normalized(m, order));
  }

  lemma AlnumNormalized(m: Matrix, order: seq<string>)
    requires KeysWithin(m, order) && AlnumValues(m)
    ensures forall n, v :: n in Normalized(m, order) && v in Normalized(m, order)[n] ==> AllAlnum(v)
  {
    hide CleanValues, Normalized, AllAlnum, TrimSpace;
    forall n, v | n in Normalized(m, order) && v in Normalized(m, order)[n] ensures AllAlnum(v) {
      var k := NormalizedFrom(m, order, n);
    }
  }

  lemma AlnumTokens(keys: seq<string>, m: Matrix)
    requires forall k, v :: k in m && v in m[k] ==> AllAlnum(v)
    ensures TokensDashFree(keys, m) && TokensDistinct(keys, m)
  {
    hide Sanitize, DashFree, AllAlnum;
    forall k, v | k in keys && k in m && v in m[k] ensures Sanitize(v) == v && DashFree(v) { AlnumToken(v); }
  }

  lemma AlnumToken(v: string)
    requires AllAlnum(v)
    ensures Sanitize(v) == v && DashFree(v)
  {
    hide Sanitize;
    TokenFixed(v);
  }

  /**
   Values of lower-case letters and digits: without a condition the ids are pairwise distinct exactly when some key
   has no values or every name that several keys share has one value.
   */
  lemma AlnumIdsDistinctIff(r: Resource, order: seq<string>)
    requires var m := EffectiveMatrix(r); IsOrder(m, order) && KeysWithin(m, order) && AlnumValues(m)
    requires TokenFree(r.id)
    ensures var m := EffectiveMatrix(r);
      && (!AllFilled(m) || SharedSingle(m, order) ==> NoDup(Ids(ExpandOne(r, order))))
      && (Blank(r.when) && NoDup(Ids(ExpandOne(r, order))) ==> !AllFilled(m) || SharedSingle(m, order))
  {
    hide EffectiveMatrix, AllFilled, SharedSingle, Tellable, FrontDashFree, TokenFree, ExpandOne, AlnumValues;
    hide Blank;
    var m := EffectiveMatrix(r);
    AlnumIsTellable(m, order);
    if Blank(r.when) { ExpandedIdsDistinctIff(r, order); }
    if !AllFilled(m) || SharedSingle(m, order) { ExpandedIdsDistinct(r, order); }
  }

  const TWIN: Matrix := map["a" := ["x", "y"], " a" := ["x", "y"]]

  lemma TwinNames()
    ensures TrimSpace("a") == "a" && TrimSpace(" a") == "a" && CleanValues(["x", "y"]) == ["x", "y"]
  {
    assert " a"[1..] == "a";
    assert TrimLeft(" a") == TrimLeft("a") == "a";
    assert Less("x", "y");
    assert IsSortedClean(["x", "y"], TrimSpace);
    SortedCleanId(["x", "y"], TrimSpace);
  }

  lemma TwinIsShared()
    ensures AllFilled(TWIN) && Shared(TWIN, "a")
  {
    hide CleanValues, TrimSpace;
    TwinNames();
    assert "a" in TWIN && " a" in TWIN && "a" != " a";
  }

  /** Two keys that trim to the same name, both with the values x and y: ids repeat, in every map order. */
  lemma SharedNameRepeatsIds(r: Resource, order: seq<string>)
    requires r.matrix == TWIN && r.loop == [] && Blank(r.when) && TokenFree(r.id) && IsOrder(TWIN, order)
    ensures KeysWithin(EffectiveMatrix(r), order) && !NoDup(Ids(ExpandOne(r, order)))
  {
    hide CleanValues, TrimSpace, AllFilled, Shared, TokenFree, ExpandOne, AllAlnum;
    OrderKeys(TWIN, order);
    TwinNames();
    TwinIsShared();
    assert AllAlnum("x") && AllAlnum("y") by { TwinAlnum(); }
    AlnumIdsDistinctIff(r, order);
    TwinNormalized(order);
  }

  lemma TwinAlnum()
    ensures AllAlnum("x") && AllAlnum("y")
  {}

  lemma TwinNormalized(order: seq<string>)
    requires IsOrder(TWIN, order) && KeysWithin(TWIN, order)
    ensures "a" in Normalized(TWIN, order) && Normalized(TWIN, order)["a"] == ["x", "y"]
  {
    hide CleanValues, TrimSpace;
    TwinNames();
    OrderKeys(TWIN, order);
    NormalizedAt(TWIN, order, "a");
  }
}
