/**
 * `str.replace` and what a chain of replacements does to a template whose
 * placeholders are written `$NAME$`.
 */
module Template {

  /** `s.replace(pat, rep)`: scans from the left, replaces every occurrence, never overlapping. */
  function ReplaceAll(s: string, pat: string, rep: string): string
    requires |pat| > 0
    decreases |s|
  {
    if |s| < |pat| then s
    else if s[..|pat|] == pat then rep + ReplaceAll(s[|pat|..], pat, rep)
    else [s[0]] + ReplaceAll(s[1..], pat, rep)
  }

  predicate OccursAt(s: string, pat: string, i: nat) {
    i + |pat| <= |s| && s[i..i + |pat|] == pat
  }

  predicate Occurs(s: string, pat: string) {
    exists i: nat | i <= |s| :: OccursAt(s, pat, i)
  }

  /** Text without the pattern comes back unchanged. */
  lemma {:induction false} ReplaceAbsent(s: string, pat: string, rep: string)
    requires |pat| > 0 && !Occurs(s, pat)
    ensures ReplaceAll(s, pat, rep) == s
    decreases |s|
  {
    if |s| >= |pat| {
      assert !OccursAt(s, pat, 0);
      assert s[0..|pat|] == s[..|pat|];
      assert !Occurs(s[1..], pat) by {
        forall i: nat | i <= |s[1..]| && OccursAt(s[1..], pat, i)
          ensures false
        {
          assert s[1..][i..i + |pat|] == s[i + 1..i + 1 + |pat|];
          assert OccursAt(s, pat, i + 1);
        }
      }
      ReplaceAbsent(s[1..], pat, rep);
      assert s == [s[0]] + s[1..];
    }
  }

  lemma ReplaceAbsentShort(x: string, pat: string, rep: string)
    requires 0 < |pat| && |x| < |pat|
    ensures ReplaceAll(x, pat, rep) == x
  {
  }

  /** A prefix without `$` is copied through when the pattern starts with `$`. */
  lemma {:induction false} ReplaceAfterDollarFree(l: string, x: string, pat: string, rep: string)
    requires |pat| > 0 && pat[0] == '$' && '$' !in l
    ensures ReplaceAll(l + x, pat, rep) == l + ReplaceAll(x, pat, rep)
    decreases |l|
  {
    if |l| > 0 {
      var s := l + x;
      assert l[0] in l;
      assert s[0] == l[0] && s[0] != '$';
      assert s[1..] == l[1..] + x;
      ReplaceAfterDollarFree(l[1..], x, pat, rep);
      assert ReplaceAll(l[1..] + x, pat, rep) == l[1..] + ReplaceAll(x, pat, rep);
      if |s| >= |pat| {
        assert s[..|pat|][0] != pat[0];
        calc {
          ReplaceAll(s, pat, rep);
          [s[0]] + ReplaceAll(s[1..], pat, rep);
          [l[0]] + (l[1..] + ReplaceAll(x, pat, rep));
          { assert l == [l[0]] + l[1..]; }
          l + ReplaceAll(x, pat, rep);
        }
      } else {
        assert ReplaceAll(s, pat, rep) == s;
        ReplaceAbsentShort(x, pat, rep);
      }
    } else {
      assert l + x == x;
    }
  }

  lemma ReplaceAtToken(pat: string, x: string, rep: string)
    requires |pat| > 0
    ensures ReplaceAll(pat + x, pat, rep) == rep + ReplaceAll(x, pat, rep)
  {
    assert (pat + x)[..|pat|] == pat;
    assert (pat + x)[|pat|..] == x;
  }

  // ---------------------------------------------------------------------------
  // Templates made of literal text and `$NAME$` slots.

  predicate IsPlaceholderChar(c: char) { 'A' <= c <= 'Z' || c == '_' }

  predicate IsPlaceholderName(name: string) {
    |name| > 0 && forall i :: 0 <= i < |name| ==> IsPlaceholderChar(name[i])
  }

  function Token(name: string): string { "$" + name + "$" }

  /** A slot for one name never matches the token of another at its start. */
  lemma TokenMismatch(other: string, name: string, x: string)
    requires IsPlaceholderName(other) && IsPlaceholderName(name) && other != name
    ensures var s, pat := Token(other) + x, Token(name); |s| < |pat| || s[..|pat|] != pat
  {
    var s, pat := Token(other) + x, Token(name);
    if |s| >= |pat| {
      var k: nat;
      if |name| < |other| {
        k := |name| + 1;
        assert pat[k] == '$' && s[k] == other[|name|];
      } else if |name| > |other| {
        k := |other| + 1;
        assert s[k] == '$' && pat[k] == name[|other|];
      } else {
        var j :| 0 <= j < |name| && other[j] != name[j];
        k := j + 1;
        assert s[k] == other[j] && pat[k] == name[j];
      }
      assert s[..|pat|][k] != pat[k];
    }
  }

  /** A `$` followed by a character that cannot start a placeholder name is copied through. */
  lemma ReplaceAfterLoneDollar(name: string, x: string, rep: string)
    requires IsPlaceholderName(name)
    requires x == "" || !IsPlaceholderChar(x[0])
    ensures ReplaceAll("$" + x, Token(name), rep) == "$" + ReplaceAll(x, Token(name), rep)
  {
    var pat, y := Token(name), "$" + x;
    if |y| >= |pat| {
      assert y[..|pat|][1] == x[0];
      assert pat[1] == name[0];
      assert y[1..] == x;
    } else {
      ReplaceAbsentShort(x, pat, rep);
    }
  }

  /** A slot for another name is copied through, provided what follows it cannot extend it. */
  lemma ReplaceOtherToken(other: string, name: string, x: string, rep: string)
    requires IsPlaceholderName(other) && IsPlaceholderName(name) && other != name
    requires x == "" || !IsPlaceholderChar(x[0])
    ensures ReplaceAll(Token(other) + x, Token(name), rep) == Token(other) + ReplaceAll(x, Token(name), rep)
  {
    var pat := Token(name);
    var s := Token(other) + x;
    NameDollarFree(other);
    FirstStepCopies(s, pat, rep, other, name, x);
    ReplaceAfterDollarFree(other, "$" + x, pat, rep);
    ReplaceAfterLoneDollar(name, x, rep);
    var r := ReplaceAll(x, pat, rep);
    assert ReplaceAll(s, pat, rep) == "$" + (other + ("$" + r));
    Regroup("$", other, "$", r);
  }

  lemma Regroup(a: string, b: string, c: string, d: string)
    ensures a + (b + (c + d)) == a + b + c + d
  {
  }

  lemma NameDollarFree(name: string)
    requires IsPlaceholderName(name)
    ensures '$' !in name
  {
  }

  /** The leading `$` of another slot's token is copied through on its own. */
  lemma FirstStepCopies(s: string, pat: string, rep: string, other: string, name: string, x: string)
    requires IsPlaceholderName(other) && IsPlaceholderName(name) && other != name
    requires s == Token(other) + x && pat == Token(name)
    ensures ReplaceAll(s, pat, rep) == "$" + ReplaceAll(other + ("$" + x), pat, rep)
  {
    assert s[1..] == other + ("$" + x);
    if |s| >= |pat| {
      TokenMismatch(other, name, x);
      assert ReplaceAll(s, pat, rep) == [s[0]] + ReplaceAll(s[1..], pat, rep);
    } else {
      assert ReplaceAll(s, pat, rep) == s;
      ReplaceAbsentShort(s[1..], pat, rep);
    }
  }

  datatype Part = Lit(text: string) | Slot(name: string)

  function PartText(p: Part): string {
    match p
    case Lit(t) => t
    case Slot(n) => Token(n)
  }

  /** The template text the parts stand for. */
  function Render(parts: seq<Part>): string
    decreases |parts|
  {
    if parts == [] then "" else PartText(parts[0]) + Render(parts[1..])
  }

  /**
   * Literals hold no `$`, slots are named by placeholder names, and every slot
   * but a final one is followed by a literal that starts with a character that
   * cannot continue a placeholder name (a space, a newline, a brace, ...).
   */
  predicate WellFormed(parts: seq<Part>) {
    && (forall i :: 0 <= i < |parts| && parts[i].Lit? ==> '$' !in parts[i].text)
    && (forall i :: 0 <= i < |parts| && parts[i].Slot? ==> IsPlaceholderName(parts[i].name))
    && (forall i :: 0 <= i < |parts| - 1 && parts[i].Slot? ==>
          parts[i + 1].Lit? && |parts[i + 1].text| > 0 && !IsPlaceholderChar(parts[i + 1].text[0]))
  }

  /** The parts with every slot `name` turned into the literal `v`. */
  function Fill(parts: seq<Part>, name: string, v: string): (r: seq<Part>)
    ensures |r| == |parts|
  {
    seq(|parts|, i requires 0 <= i < |parts| =>
      if parts[i] == Slot(name) then Lit(v) else parts[i])
  }

  /** What the template should become: every slot replaced by its value in `env`. */
  function Instantiate(parts: seq<Part>, env: map<string, string>): string
    requires forall i :: 0 <= i < |parts| && parts[i].Slot? ==> parts[i].name in env
    decreases |parts|
  {
    if parts == [] then ""
    else (match parts[0]
          case Lit(t) => t
          case Slot(n) => env[n]) + Instantiate(parts[1..], env)
  }

  lemma FillWellFormed(parts: seq<Part>, name: string, v: string)
    requires WellFormed(parts) && '$' !in v
    ensures WellFormed(Fill(parts, name, v))
  {
  }

  lemma WellFormedTail(parts: seq<Part>)
    requires WellFormed(parts) && parts != []
    ensures WellFormed(parts[1..])
  {
    assert forall i :: 0 <= i < |parts| - 1 ==> parts[1..][i] == parts[i + 1];
  }

  /** Whatever follows a slot in a well-formed template cannot extend the slot's name. */
  lemma AfterSlot(parts: seq<Part>)
    requires WellFormed(parts) && parts != [] && parts[0].Slot?
    ensures var x := Render(parts[1..]); x == "" || !IsPlaceholderChar(x[0])
  {
    if |parts| > 1 {
      assert Render(parts[1..]) == parts[1].text + Render(parts[2..]);
    }
  }

  /** One `replace` call on a part followed by more text: the part is filled or copied, then the scan goes on. */
  lemma ReplaceHead(p: Part, x: string, name: string, v: string)
    requires IsPlaceholderName(name)
    requires p.Lit? ==> '$' !in p.text
    requires p.Slot? ==> IsPlaceholderName(p.name) && (x == "" || !IsPlaceholderChar(x[0]))
    ensures ReplaceAll(PartText(p) + x, Token(name), v)
      == (if p == Slot(name) then v else PartText(p)) + ReplaceAll(x, Token(name), v)
  {
    match p
    case Lit(t) =>
      ReplaceAfterDollarFree(t, x, Token(name), v);
    case Slot(n) =>
      if n == name {
        ReplaceAtToken(Token(name), x, v);
      } else {
        ReplaceOtherToken(n, name, x, v);
      }
  }

  lemma FillHead(parts: seq<Part>, name: string, v: string)
    requires parts != []
    ensures Render(Fill(parts, name, v))
      == (if parts[0] == Slot(name) then v else PartText(parts[0])) + Render(Fill(parts[1..], name, v))
  {
    var filled := Fill(parts, name, v);
    assert filled[1..] == Fill(parts[1..], name, v);
  }

  /** One `replace` call on a well-formed template fills exactly the slots of that name. */
  lemma {:induction false} ReplaceFillsSlot(parts: seq<Part>, name: string, v: string)
    requires WellFormed(parts) && IsPlaceholderName(name) && '$' !in v
    ensures ReplaceAll(Render(parts), Token(name), v) == Render(Fill(parts, name, v))
    decreases |parts|
  {
    if parts != [] {
      var rest := parts[1..];
      WellFormedTail(parts);
      ReplaceFillsSlot(rest, name, v);
      FillHead(parts, name, v);
      var x := Render(rest);
      assert Render(parts) == PartText(parts[0]) + x;
      if parts[0].Slot? {
        AfterSlot(parts);
      }
      ReplaceHead(parts[0], x, name, v);
    }
  }

  /** `s.replace(t1, v1).replace(t2, v2)...`, one call per name, in order. */
  function ReplaceEach(s: string, names: seq<string>, env: map<string, string>): string
    requires forall k :: 0 <= k < |names| ==> IsPlaceholderName(names[k]) && names[k] in env
    decreases |names|
  {
    if names == [] then s
    else ReplaceEach(ReplaceAll(s, Token(names[0]), env[names[0]]), names[1..], env)
  }

  lemma {:induction false} InstantiateFill(parts: seq<Part>, name: string, env: map<string, string>)
    requires name in env
    requires forall i :: 0 <= i < |parts| && parts[i].Slot? ==> parts[i].name in env
    ensures Instantiate(Fill(parts, name, env[name]), env) == Instantiate(parts, env)
    decreases |parts|
  {
    if parts != [] {
      assert Fill(parts, name, env[name])[1..] == Fill(parts[1..], name, env[name]);
      InstantiateFill(parts[1..], name, env);
    }
  }

  lemma {:induction false} RenderWithoutSlots(parts: seq<Part>, env: map<string, string>)
    requires forall i :: 0 <= i < |parts| ==> parts[i].Lit?
    ensures Render(parts) == Instantiate(parts, env)
    decreases |parts|
  {
    if parts != [] {
      RenderWithoutSlots(parts[1..], env);
    }
  }

  /**
   * The replacement chain over a well-formed template whose slot names are all
   * among `names` puts each slot's value in place of the slot and changes
   * nothing else, whatever the order of `names`, provided no value holds `$`.
   */
  lemma {:induction false} ReplaceEachInstantiates(parts: seq<Part>, names: seq<string>, env: map<string, string>)
    requires WellFormed(parts)
    requires forall k :: 0 <= k < |names| ==> IsPlaceholderName(names[k]) && names[k] in env
    requires forall i :: 0 <= i < |parts| && parts[i].Slot? ==> parts[i].name in names
    requires forall n :: n in env ==> '$' !in env[n]
    ensures ReplaceEach(Render(parts), names, env) == Instantiate(parts, env)
    decreases |names|
  {
    if names == [] {
      RenderWithoutSlots(parts, env);
    } else {
      var n := names[0];
      var filled := Fill(parts, n, env[n]);
      ReplaceFillsSlot(parts, n, env[n]);
      FillWellFormed(parts, n, env[n]);
      forall i | 0 <= i < |filled| && filled[i].Slot?
        ensures filled[i].name in names[1..]
      {
        assert filled[i] == parts[i] && parts[i].name != n;
        var k :| 0 <= k < |names| && names[k] == parts[i].name;
        assert names[1..][k - 1] == names[k];
      }
      ReplaceEachInstantiates(filled, names[1..], env);
      InstantiateFill(parts, n, env);
    }
  }
}
