/** Secret substitution: `${NAME}` and `${NAME:default}` in a config text become
    `${NAME:secret}`, so that a cluster instance without the variable resolves to the secret. */
module Secrets {
  import opened Prelude

  // ---------- the pattern \$\{([A-Za-z_][A-Za-z0-9_]*)(?::[^}]*)?\}

  predicate IdentStart(c: char) { 'A' <= c <= 'Z' || 'a' <= c <= 'z' || c == '_' }

  predicate IdentChar(c: char) { IdentStart(c) || '0' <= c <= '9' }

  predicate IsIdent(s: string) { s != "" && IdentStart(s[0]) && forall i :: 0 <= i < |s| ==> IdentChar(s[i]) }

  function IdentRun(s: string): (n: nat)
    ensures n <= |s| && (n < |s| ==> !IdentChar(s[n])) && forall i :: 0 <= i < n ==> IdentChar(s[i])
  {
    if s == "" || !IdentChar(s[0]) then 0 else 1 + IdentRun(s[1..])
  }

  predicate NoClose(s: string) { forall i :: 0 <= i < |s| ==> s[i] != '}' }

  function FirstClose(s: string): (r: Option<nat>)
    ensures r.None? <==> NoClose(s)
    ensures r.Some? ==> r.value < |s| && s[r.value] == '}' && forall i :: 0 <= i < r.value ==> s[i] != '}'
  {
    if s == "" then None
    else if s[0] == '}' then Some(0)
    else
      var r := FirstClose(s[1..]);
      assert s == [s[0]] + s[1..];
      if r.Some? then Some(r.value + 1) else None
  }

  datatype Match = Match(len: nat, name: string, default: Option<string>)

  /** The match of `${` followed by `w`. The name must be the longest run of identifier
      characters, and a default ends at the first closing brace. */
  function MatchOpened(w: string): (r: Option<Match>)
    ensures r.Some? ==> 4 <= r.value.len <= |w| + 2
    ensures r.Some? && r.value.default.Some? ==> |r.value.default.value| + 5 <= r.value.len
  {
    var n := IdentRun(w);
    if w == "" || !IdentStart(w[0]) || n == |w| then None
    else if w[n] == '}' then Some(Match(n + 3, w[..n], None))
    else if w[n] == ':' then
      var e := FirstClose(w[n + 1..]);
      if e.None? then None else Some(Match(n + e.value + 4, w[..n], Some(w[n + 1..n + 1 + e.value])))
    else None
  }

  /** The match of the pattern at the very start of `s`. */
  function MatchAt(s: string): (r: Option<Match>)
    ensures r.Some? ==> 4 <= r.value.len <= |s| && s[0] == '$'
    ensures r.Some? && r.value.default.Some? ==> |r.value.default.value| + 5 <= r.value.len
  {
    if |s| < 2 || s[0] != '$' || s[1] != '{' then None else MatchOpened(s[2..])
  }

  // ---------- substitution and its meaning

  function Reference(name: string, value: string): string { "${" + name + ":" + value + "}" }

  /** Leftmost, non-overlapping replacement of all matches. */
  function Substitute(text: string, values: map<string, string>): string {
    if text == "" then ""
    else match MatchAt(text)
      case None => [text[0]] + Substitute(text[1..], values)
      case Some(m) =>
        var head := if m.name in values then Reference(m.name, values[m.name]) else text[..m.len];
        head + Substitute(text[m.len..], values)
  }

  /** What a Connect instance makes of a text: a variable resolves to its value in the
      environment, else to its default, else to nothing. */
  function Resolve(text: string, env: map<string, string>): string {
    if text == "" then ""
    else match MatchAt(text)
      case None => [text[0]] + Resolve(text[1..], env)
      case Some(m) =>
        (if m.name in env then env[m.name] else if m.default.Some? then m.default.value else "") +
            Resolve(text[m.len..], env)
  }

  // ---------- matches survive substitution of what follows

  lemma {:induction false} IdentRunOf(name: string, rest: string)
    requires forall i :: 0 <= i < |name| ==> IdentChar(name[i])
    requires rest != "" && !IdentChar(rest[0])
    ensures IdentRun(name + rest) == |name|
  {
    if name != "" {
      IdentRunOf(name[1..], rest);
      assert (name + rest)[1..] == name[1..] + rest;
    } else {
      assert name + rest == rest;
    }
  }

  lemma Cut(a: string, c: char, z: string)
    ensures var w := a + ([c] + z); w[|a|] == c && w[..|a|] == a && w[|a| + 1..] == z && (a != "" ==> w[0] == a[0])
  {
  }

  lemma Glue(w: string, n: nat, e: nat)
    requires n + 1 + e < |w|
    ensures w[..n + e + 2] == w[..n] + ([w[n]] + (w[n + 1..n + 1 + e] + [w[n + 1 + e]]))
  {
  }

  lemma OpenedReference(name: string, x: string, rest: string)
    requires IsIdent(name) && NoClose(x)
    ensures MatchOpened(name + ([':'] + (x + ("}" + rest)))) == Some(Match(|name| + |x| + 4, name, Some(x)))
  {
    hide IdentRun, FirstClose, NoClose;
    var z := x + ("}" + rest);
    var w, n := name + ([':'] + z), |name|;
    IdentRunOf(name, [':'] + z);
    Cut(name, ':', z);
    CloseAfter(x, rest);
    assert w[n + 1..n + 1 + |x|] == x by {
      assert z[..|x|] == x && w[n + 1..n + 1 + |x|] == w[n + 1..][..|x|];
    }
  }

  lemma AfterDollar(w: string)
    ensures MatchAt("${" + w) == MatchOpened(w)
  {
    hide MatchOpened;
    assert ("${" + w)[2..] == w;
  }

  /** A reference with a default up to its first closing brace matches as itself. */
  lemma ReferenceMatches(name: string, x: string, rest: string)
    requires IsIdent(name) && NoClose(x)
    ensures MatchAt(Reference(name, x) + rest) == Some(Match(|name| + |x| + 4, name, Some(x)))
  {
    hide MatchOpened, MatchAt, IsIdent;
    var w := name + ([':'] + (x + ("}" + rest)));
    OpenedReference(name, x, rest);
    AfterDollar(w);
    assert Reference(name, x) + rest == "${" + w;
  }

  lemma CloseAfter(x: string, rest: string)
    requires NoClose(x)
    ensures FirstClose(x + ("}" + rest)) == Some(|x|)
  {
    var s := x + ("}" + rest);
    assert s[|x|] == '}';
    assert forall i :: 0 <= i < |x| ==> s[i] == x[i] && x[i] in x;
  }

  lemma PlainMatches(name: string, rest: string)
    requires IsIdent(name)
    ensures MatchAt("${" + name + "}" + rest) == Some(Match(|name| + 3, name, None))
  {
    hide IdentRun, FirstClose;
    var w := name + (['}'] + rest);
    IdentRunOf(name, ['}'] + rest);
    Cut(name, '}', rest);
    assert MatchOpened(w) == Some(Match(|name| + 3, name, None));
    hide MatchOpened;
    AfterDollar(w);
    assert "${" + name + "}" + rest == "${" + w;
  }

  /** The text of a match. */
  function Spelled(m: Match): string {
    if m.default.Some? then Reference(m.name, m.default.value) else "${" + m.name + "}"
  }

  lemma OpenedShape(w: string)
    requires MatchOpened(w).Some?
    ensures
      var m := MatchOpened(w).value;
      IsIdent(m.name) && "${" + w[..m.len - 2] == Spelled(m) && (m.default.Some? ==> NoClose(m.default.value))
  {
    hide IdentRun, FirstClose, Reference;
    var m, n := MatchOpened(w).value, IdentRun(w);
    assert IsIdent(m.name) by { assert forall i :: 0 <= i < n ==> m.name[i] == w[i]; }
    if w[n] == ':' {
      var e := FirstClose(w[n + 1..]).value;
      assert m == Match(n + e + 4, w[..n], Some(w[n + 1..n + 1 + e]));
      hide MatchOpened, IsIdent;
      NoCloseBefore(w, n, e);
      Glue(w, n, e);
      ReferenceText(w[..n], w[n + 1..n + 1 + e]);
    } else {
      hide IsIdent;
      assert w[..n + 1] == w[..n] + ['}'];
      assert "${" + (w[..n] + ['}']) == "${" + w[..n] + "}";
    }
  }

  lemma ReferenceText(name: string, x: string)
    ensures Reference(name, x) == "${" + (name + ([':'] + (x + ['}'])))
  {
  }

  lemma NoCloseBefore(w: string, n: nat, e: nat)
    requires n < |w| && FirstClose(w[n + 1..]) == Some(e)
    ensures n + 1 + e < |w| && w[n + 1 + e] == '}' && NoClose(w[n + 1..n + 1 + e])
  {
    hide FirstClose;
    var z := w[n + 1..];
    assert z[e] == w[n + 1 + e];
    assert w[n + 1..n + 1 + e] == z[..e];
    assert forall i :: 0 <= i < e ==> z[..e][i] == z[i];
  }

  lemma MatchShape(s: string)
    requires MatchAt(s).Some?
    ensures
      var m := MatchAt(s).value;
      IsIdent(m.name) && s[..m.len] == Spelled(m) && (m.default.Some? ==> NoClose(m.default.value))
  {
    hide MatchOpened;
    OpenedShape(s[2..]);
    var m := MatchAt(s).value;
    assert s[..m.len] == s[..2] + s[2..][..m.len - 2] && s[..2] == "${";
  }

  /** A match depends only on the matched characters. */
  lemma MatchIsLocal(s: string, rest: string)
    requires MatchAt(s).Some?
    ensures MatchAt(s[..MatchAt(s).value.len] + rest) == MatchAt(s)
  {
    MatchShape(s);
    hide MatchAt, IsIdent, Spelled;
    var m := MatchAt(s).value;
    SpelledMatches(m, rest);
    assert |s[..m.len]| == m.len;
  }

  lemma SpelledMatches(m: Match, rest: string)
    requires IsIdent(m.name) && (m.default.Some? ==> NoClose(m.default.value))
    ensures MatchAt(Spelled(m) + rest) == Some(m.(len := |Spelled(m)|))
  {
    hide MatchAt, IsIdent;
    if m.default.Some? {
      ReferenceMatches(m.name, m.default.value, rest);
    } else {
      PlainMatches(m.name, rest);
    }
  }

  /** Whether `${` followed by `w` matches, in terms of the identifier run at the start of `w`. */
  lemma MatchByRun(w: string)
    ensures
      var n := IdentRun(w);
      MatchAt("${" + w).Some? <==>
        w != "" && IdentStart(w[0]) && n < |w| && (w[n] == '}' || (w[n] == ':' && !NoClose(w[n + 1..])))
  {
    hide MatchAt, IdentRun, FirstClose;
    AfterDollar(w);
  }

  // ---------- which texts are references

  /** A name of letters, digits and underscores that does not start with a digit. */
  predicate VariableName(name: string) {
    && name != "" && ('A' <= name[0] <= 'Z' || 'a' <= name[0] <= 'z' || name[0] == '_')
    && forall i :: 0 < i < |name| ==>
         'A' <= name[i] <= 'Z' || 'a' <= name[i] <= 'z' || name[i] == '_' || '0' <= name[i] <= '9'
  }

  /** A name, and perhaps a default without a closing brace. */
  predicate Variable(name: string, default: Option<string>) {
    VariableName(name) && (default.Some? ==> forall i :: 0 <= i < |default.value| ==> default.value[i] != '}')
  }

  function Written(name: string, default: Option<string>): string {
    if default.None? then "${" + name + "}" else "${" + name + ":" + default.value + "}"
  }

  /** Every reference is substituted and resolved, whatever follows it: substitution puts the secret in
      place of the default, and an instance takes the value, else the default, else nothing. */
  lemma ReferenceReplaced(name: string, default: Option<string>, rest: string, values: map<string, string>)
    requires Variable(name, default)
    ensures Substitute(Written(name, default) + rest, values)
            == (if name in values then "${" + name + ":" + values[name] + "}" else Written(name, default)) +
               Substitute(rest, values)
    ensures Resolve(Written(name, default) + rest, values)
            == (if name in values then values[name] else if default.Some? then default.value else "") +
               Resolve(rest, values)
  {
    var m := Match(|Written(name, default)|, name, default);
    assert IsIdent(name);
    assert Spelled(m) == Written(name, default);
    hide MatchAt, IsIdent, Spelled;
    SpelledMatches(m, rest);
    var s := Written(name, default) + rest;
    assert s[..m.len] == Written(name, default) && s[m.len..] == rest;
  }

  /** Any other text is passed over, one character at a time. */
  lemma OtherTextPassed(text: string, values: map<string, string>)
    requires text != "" && forall name, default :: Variable(name, default) ==> !(Written(name, default) <= text)
    ensures Substitute(text, values) == [text[0]] + Substitute(text[1..], values)
    ensures Resolve(text, values) == [text[0]] + Resolve(text[1..], values)
  {
    if MatchAt(text).Some? {
      MatchIsWritten(text);
    }
  }

  lemma MatchIsWritten(text: string)
    requires MatchAt(text).Some?
    ensures exists name, default :: Variable(name, default) && Written(name, default) <= text
  {
    MatchShape(text);
    var m := MatchAt(text).value;
    hide MatchAt;
    assert Variable(m.name, m.default) && Spelled(m) == Written(m.name, m.default);
    assert text[..m.len] <= text;
  }

  lemma {:induction false} NoCloseNoChange(u: string, values: map<string, string>)
    requires NoClose(u)
    ensures Substitute(u, values) == u
  {
    if u != "" {
      assert u == [u[0]] + u[1..];
      NoCloseNoChange(u[1..], values);
    }
  }

  lemma HeadStays(u: string, values: map<string, string>)
    ensures u == "" <==> Substitute(u, values) == ""
    ensures u != "" ==> Substitute(u, values)[0] == u[0]
    ensures u != "" && u[0] != '$' ==> Substitute(u, values) == [u[0]] + Substitute(u[1..], values)
  {
  }

  lemma {:induction false} RunStays(u: string, values: map<string, string>)
    ensures
      var n, v := IdentRun(u), Substitute(u, values);
      IdentRun(v) == n && n <= |v| && v[n..] == Substitute(u[n..], values)
  {
    hide Substitute, MatchAt;
    var v := Substitute(u, values);
    HeadStays(u, values);
    if u != "" && IdentChar(u[0]) {
      RunStays(u[1..], values);
      var n := IdentRun(u[1..]);
      assert v[1..] == Substitute(u[1..], values);
      assert u[n + 1..] == u[1..][n..] && v[n + 1..] == v[1..][n..];
    } else {
      assert u[0..] == u && v[0..] == v;
    }
  }

  /** Substituting `w` neither makes nor breaks a match that starts just before it. */
  lemma OpenStays(w: string, values: map<string, string>)
    requires MatchAt("${" + w).None?
    ensures MatchAt("${" + Substitute(w, values)).None?
  {
    hide Substitute, MatchAt;
    var v, n := Substitute(w, values), IdentRun(w);
    MatchByRun(w);
    MatchByRun(v);
    HeadStays(w, values);
    RunStays(w, values);
    HeadStays(w[n..], values);
    assert v[n..] == Substitute(w[n..], values);
    assert n < |w| <==> n < |v|;
    if n < |w| && IdentStart(w[0]) {
      assert v[n] == v[n..][0] == w[n..][0] == w[n];
      if w[n] == ':' {
        NoCloseNoChange(w[n + 1..], values);
        assert w[n..][1..] == w[n + 1..];
        assert v[n + 1..] == v[n..][1..] == Substitute(w[n + 1..], values);
      }
    }
  }

  /** Text that is not a match does not become one when what follows it is substituted. */
  lemma LiteralStays(c: char, u: string, values: map<string, string>)
    requires MatchAt([c] + u).None?
    ensures MatchAt([c] + Substitute(u, values)).None?
  {
    hide Substitute;
    HeadStays(u, values);
    if c == '$' && u != "" && u[0] == '{' {
      var w := u[1..];
      assert [c] + u == "${" + w;
      assert [c] + Substitute(u, values) == "${" + Substitute(w, values);
      OpenStays(w, values);
    }
  }

  // ---------- closing braces in values

  /** A closing brace is followed by nothing but closing braces. */
  predicate TrailingCloses(v: string) { forall i, j :: 0 <= i < j < |v| && v[i] == '}' ==> v[j] == '}' }

  predicate AllCloses(s: string) { forall i :: 0 <= i < |s| ==> s[i] == '}' }

  lemma PlainLiteral(c: char, z: string, env: map<string, string>)
    requires c != '$'
    ensures Resolve([c] + z, env) == [c] + Resolve(z, env)
  {
    assert ([c] + z)[1..] == z;
  }

  lemma {:induction false} ClosesAreLiteral(k: string, z: string, env: map<string, string>)
    requires AllCloses(k)
    ensures Resolve(k + z, env) == k + Resolve(z, env)
  {
    hide Resolve;
    if k == "" {
      assert k + z == z;
    } else {
      ClosesAreLiteral(k[1..], z, env);
      PlainLiteral(k[0], k[1..] + z, env);
      assert k + z == [k[0]] + (k[1..] + z);
      assert k + Resolve(z, env) == [k[0]] + (k[1..] + Resolve(z, env));
    }
  }

  function UpToClose(v: string): nat { if FirstClose(v).Some? then FirstClose(v).value else |v| }

  /** Resolving a substituted reference: the value up to its first brace comes from the default,
      and the rest of the reference is ordinary text. */
  lemma ResolveReference(name: string, v: string, rest: string, env: map<string, string>)
    requires IsIdent(name) && name !in env
    ensures
      var e := UpToClose(v);
      Resolve(Reference(name, v) + rest, env) ==
          v[..e] + Resolve((if e < |v| then v[e + 1..] + "}" else "") + rest, env)
  {
    hide MatchAt, FirstClose;
    var e := UpToClose(v);
    var x := v[..e];
    assert NoClose(x) by { assert forall i :: 0 <= i < e ==> x[i] == v[i]; }
    var tail := (if e < |v| then v[e + 1..] + "}" else "") + rest;
    var s := Reference(name, v) + rest;
    assert s == Reference(name, x) + tail by {
      if e < |v| {
        assert v == x + "}" + v[e + 1..];
      } else {
        assert v == x;
      }
    }
    ReferenceMatches(name, x, tail);
    assert s[|name| + |x| + 4..] == tail;
  }

  lemma ResolveLiteral(c: char, u: string, values: map<string, string>, env: map<string, string>)
    requires MatchAt([c] + u).None?
    ensures Resolve([c] + Substitute(u, values), env) == [c] + Resolve(Substitute(u, values), env)
  {
    hide Substitute;
    LiteralStays(c, u, values);
    assert ([c] + Substitute(u, values))[1..] == Substitute(u, values);
  }

  lemma ResolveKept(text: string, rest: string, env: map<string, string>)
    requires MatchAt(text).Some?
    ensures
      var m := MatchAt(text).value;
      Resolve(text[..m.len] + rest, env)
      == (if m.name in env then env[m.name] else if m.default.Some? then m.default.value else "") + Resolve(rest, env)
  {
    MatchIsLocal(text, rest);
    var m := MatchAt(text).value;
    hide MatchAt;
    assert (text[..m.len] + rest)[m.len..] == rest;
  }

  lemma ResolveSecret(name: string, v: string, rest: string, env: map<string, string>)
    requires IsIdent(name) && name !in env && TrailingCloses(v)
    ensures Resolve(Reference(name, v) + rest, env) == v + Resolve(rest, env)
  {
    hide Resolve, FirstClose, Reference, IsIdent;
    ResolveReference(name, v, rest, env);
    var e := UpToClose(v);
    if e < |v| {
      RotateCloses(v, e);
      ClosesAreLiteral(v[e + 1..] + "}", rest, env);
    } else {
      assert "" + rest == rest && v[..e] == v;
    }
  }

  /** Meaning is preserved: if in every secret value closing braces stand only at the end, then
      resolving the substituted text where the secrets' variables are unset gives the same as
      resolving the original text where they are set, whatever else is in the environment. */
  lemma {:induction false} MeaningPreserved(text: string, values: map<string, string>, env: map<string, string>)
    requires forall name :: name in values && IsIdent(name) ==> TrailingCloses(values[name])
    ensures Resolve(Substitute(text, values), env - values.Keys) == Resolve(text, env + values)
    decreases |text|
  {
    hide MatchAt, TrailingCloses, IsIdent;
    if text != "" {
      var lower := env - values.Keys;
      match MatchAt(text) {
        case None =>
          assert [text[0]] + text[1..] == text;
          ResolveLiteral(text[0], text[1..], values, lower);
          MeaningPreserved(text[1..], values, env);
        case Some(m) =>
          var rest := Substitute(text[m.len..], values);
          MeaningPreserved(text[m.len..], values, env);
          MatchShape(text);
          if m.name in values {
            ResolveSecret(m.name, values[m.name], rest, lower);
          } else {
            ResolveKept(text, rest, lower);
          }
      }
    }
  }

  lemma RotateCloses(v: string, e: nat)
    requires e < |v| && v[e] == '}' && TrailingCloses(v)
    ensures AllCloses(v[e + 1..] + "}") && v == v[..e] + (v[e + 1..] + "}")
  {
    var k := v[e + 1..] + "}";
    forall i | 0 <= i < |k| ensures k[i] == '}' {
      assert i < |k| - 1 ==> k[i] == v[e + 1 + i];
    }
    assert v[e..] == k by {
      forall i | 0 <= i < |k| ensures v[e..][i] == k[i] {
        assert v[e..][i] == v[e + i];
      }
    }
  }

  // ---------- exactly when meaning is preserved

  ghost predicate Agrees(text: string, values: map<string, string>, env: map<string, string>) {
    Resolve(Substitute(text, values), env - values.Keys) == Resolve(text, env + values)
  }

  lemma {:induction false} UnsetShrinks(s: string)
    ensures |Resolve(s, map[])| <= |s|
    ensures |Resolve(s, map[])| == |s| ==> Resolve(s, map[]) == s
    decreases |s|
  {
    hide MatchAt;
    if s != "" {
      match MatchAt(s) {
        case None =>
          UnsetShrinks(s[1..]);
          assert s == [s[0]] + s[1..];
        case Some(m) =>
          UnsetShrinks(s[m.len..]);
      }
    }
  }

  lemma {:induction false} RotatedIsCloses(y: string, i: nat)
    requires y + "}" == "}" + y && i < |y|
    ensures y[i] == '}'
  {
    assert (y + "}")[i] == ("}" + y)[i];
    if i > 0 {
      RotatedIsCloses(y, i - 1);
    }
  }

  lemma SubstituteSingle(name: string, values: map<string, string>)
    requires IsIdent(name) && name in values
    ensures Substitute("${" + name + "}", values) == Reference(name, values[name])
    ensures forall env: map<string, string> :: name in env ==> Resolve("${" + name + "}", env) == env[name]
  {
    PlainMatches(name, "");
    assert "${" + name + "}" + "" == "${" + name + "}";
    assert ("${" + name + "}")[|name| + 3..] == "";
  }

  lemma InnerCloseChangesMeaning(name: string, values: map<string, string>)
    requires IsIdent(name) && name in values && !TrailingCloses(values[name])
    ensures !Agrees("${" + name + "}", values, map[])
  {
    hide Resolve, Substitute, MatchAt;
    var v := values[name];
    var none: map<string, string> := map[] - values.Keys;
    assert none == map[];
    SubstituteSingle(name, values);
    assert map[] + values == values;
    if Agrees("${" + name + "}", values, map[]) {
      ResolveReference(name, v, "", none);
      var e := UpToClose(v);
      assert Reference(name, v) + "" == Reference(name, v);
      assert e < |v|;
      var y := v[e + 1..];
      assert y + "}" + "" == y + "}";
      var r := Resolve(y + "}", none);
      assert v == v[..e] + ("}" + y);
      assert v[..e] + r == v;
      assert r == v[e..] == "}" + y;
      UnsetShrinks(y + "}");
      assert y + "}" == "}" + y;
      forall i | 0 <= i < |y| ensures y[i] == '}' {
        RotatedIsCloses(y, i);
      }
    }
  }

  /** Substitution preserves the meaning of every text in every environment if and only if no
      value has a closing brace before another character. */
  lemma MeaningExact(values: map<string, string>)
    ensures (forall text, env :: Agrees(text, values, env))
            <==> (forall name :: name in values && IsIdent(name) ==> TrailingCloses(values[name]))
  {
    hide TrailingCloses, IsIdent;
    if forall name :: name in values && IsIdent(name) ==> TrailingCloses(values[name]) {
      forall text, env ensures Agrees(text, values, env) {
        MeaningPreserved(text, values, env);
      }
    } else {
      var name :| name in values && IsIdent(name) && !TrailingCloses(values[name]);
      InnerCloseChangesMeaning(name, values);
    }
  }

  // ---------- idempotence and what stays the same

  ghost predicate Stable(text: string, values: map<string, string>) {
    Substitute(Substitute(text, values), values) == Substitute(text, values)
  }

  lemma {:induction false} SubstituteTwice(text: string, values: map<string, string>)
    requires forall name :: name in values && IsIdent(name) ==> NoClose(values[name])
    ensures Stable(text, values)
    decreases |text|
  {
    hide MatchAt, IsIdent;
    if text != "" {
      match MatchAt(text) {
        case None =>
          assert [text[0]] + text[1..] == text;
          LiteralStays(text[0], text[1..], values);
          SubstituteTwice(text[1..], values);
          assert ([text[0]] + Substitute(text[1..], values))[1..] == Substitute(text[1..], values);
        case Some(m) =>
          var rest := Substitute(text[m.len..], values);
          SubstituteTwice(text[m.len..], values);
          MatchShape(text);
          if m.name in values {
            SubstituteReference(m.name, values[m.name], rest, values);
          } else {
            MatchIsLocal(text, rest);
            assert (text[..m.len] + rest)[m.len..] == rest;
            assert (text[..m.len] + rest)[..m.len] == text[..m.len];
          }
      }
    }
  }

  lemma SubstituteReference(name: string, x: string, rest: string, values: map<string, string>)
    requires IsIdent(name) && NoClose(x) && name in values
    ensures Substitute(Reference(name, x) + rest, values) == Reference(name, values[name]) + Substitute(rest, values)
  {
    ReferenceMatches(name, x, rest);
    hide MatchAt;
    assert (Reference(name, x) + rest)[|name| + |x| + 4..] == rest;
  }

  lemma CloseIsUnstable(name: string, values: map<string, string>)
    requires IsIdent(name) && name in values && !NoClose(values[name])
    ensures !Stable("${" + name + "}", values)
  {
    hide Substitute, MatchAt, FirstClose, IsIdent;
    var v := values[name];
    var e := FirstClose(v).value;
    var x, y := v[..e], v[e + 1..];
    SubstituteSingle(name, values);
    assert NoClose(x) by { assert forall i :: 0 <= i < e ==> x[i] == v[i]; }
    assert v == x + "}" + y;
    assert Reference(name, v) == Reference(name, x) + (y + "}");
    SubstituteReference(name, x, y + "}", values);
    HeadStays(y + "}", values);
  }

  /** Substituting twice changes nothing, for every text, if and only if no value has a
      closing brace. */
  lemma IdempotentExact(values: map<string, string>)
    ensures (forall text :: Stable(text, values))
            <==> (forall name :: name in values && IsIdent(name) ==> NoClose(values[name]))
  {
    hide IsIdent;
    if forall name :: name in values && IsIdent(name) ==> NoClose(values[name]) {
      forall text ensures Stable(text, values) {
        SubstituteTwice(text, values);
      }
    } else {
      var name :| name in values && IsIdent(name) && !NoClose(values[name]);
      CloseIsUnstable(name, values);
    }
  }

  /** The names a text refers to. */
  function References(text: string): set<string> {
    if text == "" then {}
    else match MatchAt(text)
      case None => References(text[1..])
      case Some(m) => {m.name} + References(text[m.len..])
  }

  /** A text that refers to none of the secrets is left unchanged. */
  lemma {:induction false} UnrelatedTextUnchanged(text: string, values: map<string, string>)
    requires References(text) !! values.Keys
    ensures Substitute(text, values) == text
    decreases |text|
  {
    hide MatchAt, Reference;
    if text != "" {
      match MatchAt(text) {
        case None =>
          UnrelatedTextUnchanged(text[1..], values);
          assert text == [text[0]] + text[1..];
        case Some(m) =>
          assert m.name in References(text);
          UnrelatedTextUnchanged(text[m.len..], values);
          assert text == text[..m.len] + text[m.len..];
      }
    }
  }

  // ---------- reading the secrets

  datatype SecretRef = SecretRef(envVar: string, secretName: string, key: string)

  type SecretStore = map<string, map<string, string>>

  datatype Fetched =
    | Values(values: map<string, string>)
    | SecretNotFound(secretName: string)
    | ReadError(secretName: string)
    | KeyNotFound(key: string, secretName: string)

  /** The environment a pod gets from the same references: a later entry overrides an earlier one. */
  function PodEnvironment(refs: seq<SecretRef>, store: SecretStore): map<string, string>
    requires forall i :: 0 <= i < |refs| ==> Readable(refs[i], store)
  {
    if refs == [] then map[]
    else
      var r := refs[|refs| - 1];
      assert Readable(r, store);
      PodEnvironment(refs[..|refs| - 1], store)[r.envVar := store[r.secretName][r.key]]
  }

  predicate Readable(r: SecretRef, store: SecretStore) { r.secretName in store && r.key in store[r.secretName] }

  /** The i-th reference is the last one for the variable. */
  ghost predicate Decides(refs: seq<SecretRef>, i: int, name: string) {
    0 <= i < |refs| && refs[i].envVar == name && forall j :: i < j < |refs| ==> refs[j].envVar != name
  }

  /** The last reference for a variable decides, as it does in a pod. */
  lemma {:induction false} LastReferenceWins(refs: seq<SecretRef>, store: SecretStore, i: nat, name: string)
    requires forall k :: 0 <= k < |refs| ==> Readable(refs[k], store)
    requires Decides(refs, i, name)
    ensures name in PodEnvironment(refs, store)
    ensures PodEnvironment(refs, store)[name] == store[refs[i].secretName][refs[i].key]
  {
    var n := |refs| - 1;
    if i < n {
      assert refs[n].envVar != name;
      assert forall k :: 0 <= k < n ==> refs[..n][k] == refs[k];
      LastReferenceWins(refs[..n], store, i, name);
    }
  }

  /** Nothing else is set. */
  lemma {:induction false} OnlyReferencesSet(refs: seq<SecretRef>, store: SecretStore, name: string)
    requires forall k :: 0 <= k < |refs| ==> Readable(refs[k], store)
    ensures name in PodEnvironment(refs, store) <==> exists i :: 0 <= i < |refs| && refs[i].envVar == name
  {
    if refs != [] {
      var n := |refs| - 1;
      assert forall k :: 0 <= k < n ==> refs[..n][k] == refs[k];
      OnlyReferencesSet(refs[..n], store, name);
    }
  }

  /** The secret can be fetched: the read does not fail and the secret exists. */
  predicate Fetchable(r: SecretRef, store: SecretStore, failing: set<string>) {
    r.secretName !in failing && r.secretName in store
  }

  /** Either every reference can be fetched and read, and the result is the pod's environment; or the
      error names the first secret that cannot be fetched, or failing that the first missing key. */
  method FetchSecretValues(refs: seq<SecretRef>, store: SecretStore, failing: set<string>) returns (r: Fetched)
    ensures r.Values? <==>
            forall i :: 0 <= i < |refs| ==> Fetchable(refs[i], store, failing) && Readable(refs[i], store)
    ensures r.Values? ==> r.values == PodEnvironment(refs, store)
    ensures r.SecretNotFound? || r.ReadError? ==>
              exists i :: 0 <= i < |refs| && refs[i].secretName == r.secretName && !Fetchable(refs[i], store, failing)
                          && (r.ReadError? <==> r.secretName in failing)
                          && forall j :: 0 <= j < i ==> Fetchable(refs[j], store, failing)
    ensures r.KeyNotFound? ==> (forall j :: 0 <= j < |refs| ==> Fetchable(refs[j], store, failing))
                               && exists i :: 0 <= i < |refs| && refs[i].secretName == r.secretName
                                              && refs[i].key == r.key && !Readable(refs[i], store)
                                              && forall j :: 0 <= j < i ==> Readable(refs[j], store)
  {
    if |refs| == 0 { return Values(map[]); }
    var secrets: SecretStore := map[];
    for i := 0 to |refs|
      invariant forall j :: 0 <= j < i ==> Fetchable(refs[j], store, failing) && refs[j].secretName in secrets
      invariant forall n :: n in secrets ==> n !in failing && n in store && secrets[n] == store[n]
    {
      if refs[i].secretName in secrets { continue; }
      if refs[i].secretName in failing { return ReadError(refs[i].secretName); }
      if refs[i].secretName !in store { return SecretNotFound(refs[i].secretName); }
      secrets := secrets[refs[i].secretName := store[refs[i].secretName]];
    }
    var values := map[];
    for i := 0 to |refs|
      invariant forall j :: 0 <= j < i ==> Readable(refs[j], store)
      invariant values == PodEnvironment(refs[..i], store)
    {
      var data := secrets[refs[i].secretName];
      if refs[i].key !in data { return KeyNotFound(refs[i].key, refs[i].secretName); }
      assert refs[..i + 1][..i] == refs[..i];
      values := values[refs[i].envVar := data[refs[i].key]];
    }
    assert refs[..|refs|] == refs;
    r := Values(values);
  }

  function SubstituteSecrets(text: string, refs: seq<SecretRef>, values: map<string, string>): string {
    if |refs| == 0 || |values| == 0 then text else Substitute(text, values)
  }

  /** Cluster mode and pod mode agree: the stream config with its secrets substituted means, on
      an instance that lacks the secrets' variables, what the plain config means in a pod whose
      environment carries them. */
  lemma ClusterModeMatchesPodMode(text: string, refs: seq<SecretRef>, store: SecretStore, env: map<string, string>)
    requires forall i :: 0 <= i < |refs| ==> Readable(refs[i], store)
    requires forall name :: name in PodEnvironment(refs, store) ==> TrailingCloses(PodEnvironment(refs, store)[name])
    ensures
      var secrets := PodEnvironment(refs, store);
      Resolve(SubstituteSecrets(text, refs, secrets), env - secrets.Keys) == Resolve(text, env + secrets)
  {
    hide Resolve, Substitute, TrailingCloses;
    var secrets := PodEnvironment(refs, store);
    if |refs| == 0 || |secrets| == 0 {
      assert secrets == map[];
      assert env - secrets.Keys == env && env + secrets == env;
    } else {
      MeaningPreserved(text, secrets, env);
    }
  }
}
