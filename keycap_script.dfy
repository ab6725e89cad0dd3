/** Per-field derivations of the batch export (src/components/Buttons.tsx):
    the placeholder values of a field, the substitution of those values into
    the cached OpenSCAD template, and the file name of the exported mesh. */
module KeycapScript {
  import opened Base
  import opened Strings
  import opened Escape
  import opened Workspace

  // ---------------------------------------------------------------------------
  // Global replacement of a placeholder

  /** `s.replace(new RegExp(t, "g"), v)` for a placeholder `t` made of letters
      and `_`, with `v` inserted literally: the occurrences of `t` are found
      left to right without overlapping and each is replaced by `v`. */
  function ReplaceAll(s: string, t: string, v: string): string
    requires |t| > 0
    decreases |s|
  {
    if |s| < |t| then s
    else if s[..|t|] == t then v + ReplaceAll(s[|t|..], t, v)
    else [s[0]] + ReplaceAll(s[1..], t, v)
  }

  /** The text between the occurrences of `t` that a global replacement
      finds, in order. */
  function Pieces(s: string, t: string): (ps: seq<string>)
    requires |t| > 0
    ensures |ps| >= 1
    decreases |s|
  {
    if |s| < |t| then [s]
    else if s[..|t|] == t then [""] + Pieces(s[|t|..], t)
    else
      var ps := Pieces(s[1..], t);
      [[s[0]] + ps[0]] + ps[1..]
  }

  lemma JoinMerge(c: char, ps: seq<string>, sep: string)
    requires |ps| >= 1
    ensures Join([[c] + ps[0]] + ps[1..], sep) == [c] + Join(ps, sep)
  {
    if |ps| > 1 {
      JoinCons([c] + ps[0], ps[1..], sep);
      JoinCons(ps[0], ps[1..], sep);
      assert [ps[0]] + ps[1..] == ps;
    }
  }

  lemma {:induction false} PiecesJoin(s: string, t: string, v: string)
    requires |t| > 0
    ensures Join(Pieces(s, t), v) == ReplaceAll(s, t, v)
    decreases |s|
  {
    if |s| >= |t| {
      if s[..|t|] == t {
        PiecesJoin(s[|t|..], t, v);
        PiecesJoinMatch(s, t, v);
      } else {
        PiecesJoin(s[1..], t, v);
        PiecesJoinSkip(s, t, v);
      }
    }
  }

  /** The step of `PiecesJoin` at an occurrence of `t`. */
  lemma PiecesJoinMatch(s: string, t: string, v: string)
    requires 0 < |t| <= |s| && s[..|t|] == t
    requires Join(Pieces(s[|t|..], t), v) == ReplaceAll(s[|t|..], t, v)
    ensures Join(Pieces(s, t), v) == ReplaceAll(s, t, v)
  {
    var ps := Pieces(s[|t|..], t);
    JoinCons("", ps, v);
    assert "" + v + Join(ps, v) == v + Join(ps, v);
  }

  /** The step of `PiecesJoin` at a character that starts no occurrence. */
  lemma PiecesJoinSkip(s: string, t: string, v: string)
    requires 0 < |t| <= |s| && s[..|t|] != t
    requires Join(Pieces(s[1..], t), v) == ReplaceAll(s[1..], t, v)
    ensures Join(Pieces(s, t), v) == ReplaceAll(s, t, v)
  {
    JoinMerge(s[0], Pieces(s[1..], t), v);
  }

  lemma {:induction false} ReplaceAllSelf(s: string, t: string)
    requires |t| > 0
    ensures ReplaceAll(s, t, t) == s
    decreases |s|
  {
    if |s| >= |t| {
      if s[..|t|] == t {
        ReplaceAllSelf(s[|t|..], t);
        assert s == s[..|t|] + s[|t|..];
      } else {
        ReplaceAllSelf(s[1..], t);
        assert s == [s[0]] + s[1..];
      }
    }
  }

  lemma {:induction false} PiecesTokenFree(s: string, t: string)
    requires |t| > 0
    ensures StartsWith(s, Pieces(s, t)[0])
    ensures forall i :: 0 <= i < |Pieces(s, t)| ==> !Contains(Pieces(s, t)[i], t)
    decreases |s|
  {
    var ps := Pieces(s, t);
    if |s| < |t| {
      forall j: nat | j <= |s| ensures !OccursAt(s, t, j) {}
    } else if s[..|t|] == t {
      PiecesTokenFree(s[|t|..], t);
      assert ps[1..] == Pieces(s[|t|..], t);
      forall i | 0 <= i < |ps| ensures !Contains(ps[i], t) {
        if i > 0 {
          assert ps[i] == Pieces(s[|t|..], t)[i - 1];
        }
      }
    } else {
      var rest := Pieces(s[1..], t);
      PiecesTokenFree(s[1..], t);
      var p := [s[0]] + rest[0];
      assert StartsWith(s, p) by {
        assert s == [s[0]] + s[1..];
        assert s[1..][..|rest[0]|] == rest[0];
      }
      forall j: nat | j <= |p| ensures !OccursAt(p, t, j) {
        if j == 0 {
        } else if OccursAt(p, t, j) {
          assert p[j..j + |t|] == rest[0][j - 1..j - 1 + |t|];
          assert OccursAt(rest[0], t, j - 1);
        }
      }
      forall i | 0 <= i < |ps| ensures !Contains(ps[i], t) {
        if i > 0 {
          assert ps[i] == rest[i];
        }
      }
    }
  }

  /** The replacement is global: the text splits into pieces that hold no
      occurrence of `t`, joined by `t`, and the result joins the same pieces
      with `v` — one `v` for each occurrence found. */
  lemma ReplaceAllIsGlobal(s: string, t: string, v: string)
    requires |t| > 0
    ensures var ps := Pieces(s, t);
      && s == Join(ps, t)
      && ReplaceAll(s, t, v) == Join(ps, v)
      && forall i :: 0 <= i < |ps| ==> !Contains(ps[i], t)
  {
    PiecesJoin(s, t, v);
    PiecesJoin(s, t, t);
    ReplaceAllSelf(s, t);
    PiecesTokenFree(s, t);
  }

  // ---------------------------------------------------------------------------
  // The same replacement as JavaScript performs it

  /** JavaScript's expansion of a replacement string (GetSubstitution):
      `$$` is a dollar sign, `$&` the matched text, `` $` `` the text before
      the match and `$'` the text after it; the pattern has no capture groups,
      so every other `$` stays as it is. */
  function Expand(v: string, matched: string, before: string, after: string): string
    decreases |v|
  {
    if |v| == 0 then ""
    else if v[0] == '$' && |v| >= 2 && (v[1] == '$' || v[1] == '&' || v[1] == '`' || v[1] == '\'') then
      (match v[1]
       case '$' => "$"
       case '&' => matched
       case '`' => before
       case _ => after)
      + Expand(v[2..], matched, before, after)
    else [v[0]] + Expand(v[1..], matched, before, after)
  }

  function ReplaceFromAsWritten(s: string, t: string, v: string, i: nat): string
    requires |t| > 0 && i <= |s|
    decreases |s| - i
  {
    if |s| - i < |t| then s[i..]
    else if s[i..i + |t|] == t then Expand(v, t, s[..i], s[i + |t|..]) + ReplaceFromAsWritten(s, t, v, i + |t|)
    else [s[i]] + ReplaceFromAsWritten(s, t, v, i + 1)
  }

  /** `s.replace(new RegExp(t, "g"), v)` as the source calls it: `v` is a
      replacement pattern, not literal text. */
  function ReplaceAllAsWritten(s: string, t: string, v: string): string
    requires |t| > 0
  {
    ReplaceFromAsWritten(s, t, v, 0)
  }

  lemma {:induction false} ExpandPlain(v: string, matched: string, before: string, after: string)
    requires '$' !in v
    ensures Expand(v, matched, before, after) == v
  {
    if |v| > 0 {
      ExpandPlain(v[1..], matched, before, after);
      assert v == [v[0]] + v[1..];
    }
  }

  lemma {:induction false} ReplaceFromPlain(s: string, t: string, v: string, i: nat)
    requires |t| > 0 && i <= |s| && '$' !in v
    ensures ReplaceFromAsWritten(s, t, v, i) == ReplaceAll(s[i..], t, v)
    decreases |s| - i
  {
    if |s| - i >= |t| {
      var next := if OccursAt(s, t, i) then i + |t| else i + 1;
      ReplaceFromPlain(s, t, v, next);
      ReplaceFromStep(s, t, v, i);
    }
  }

  /** One step of `ReplaceFromPlain`: past an occurrence of `t`, or past
      one character that starts none. */
  lemma ReplaceFromStep(s: string, t: string, v: string, i: nat)
    requires 0 < |t| && i + |t| <= |s| && '$' !in v
    requires var next := if OccursAt(s, t, i) then i + |t| else i + 1;
      ReplaceFromAsWritten(s, t, v, next) == ReplaceAll(s[next..], t, v)
    ensures ReplaceFromAsWritten(s, t, v, i) == ReplaceAll(s[i..], t, v)
  {
    assert s[i..][..|t|] == s[i..i + |t|];
    if OccursAt(s, t, i) {
      ExpandPlain(v, t, s[..i], s[i + |t|..]);
      assert s[i..][|t|..] == s[i + |t|..];
    } else {
      assert s[i..][1..] == s[i + 1..];
    }
  }

  /** Without a `$` in the value, the source's replacement is the literal one. */
  lemma ReplaceAllAsWrittenPlain(s: string, t: string, v: string)
    requires |t| > 0 && '$' !in v
    ensures ReplaceAllAsWritten(s, t, v) == ReplaceAll(s, t, v)
  {
    ReplaceFromPlain(s, t, v, 0);
    assert s[0..] == s;
  }

  // ---------------------------------------------------------------------------
  // Placeholder values of a field

  /** `["Cap_U.stl", "Cap_O.stl", "Cap_Flat.stl"][field.model]`, which is
      `undefined` (and prints as such) for any other index. */
  function ModelImportPath(model: int): string {
    if model == 0 then "Cap_U.stl"
    else if model == 1 then "Cap_O.stl"
    else if model == 2 then "Cap_Flat.stl"
    else "undefined"
  }

  /** `["U", "O", "F"][field.model]`. */
  function ModelTag(model: int): string {
    if model == 0 then "U" else if model == 1 then "O" else if model == 2 then "F" else "undefined"
  }

  /** `b.toString()`. */
  function BoolString(b: bool): string {
    if b then "true" else "false"
  }

  /** The `replacements` object of one field, in its key order. */
  function Replacements(f: Field): seq<(string, string)> {
    [ ("LLB", if f.labelType == 0 then EscapeString(f.main) else ""),
      ("LLT", if f.labelType == 0 then EscapeString(f.shift) else ""),
      ("LRT", if f.labelType == 0 then EscapeString(f.fn) else ""),
      ("LC", if f.labelType == 1 then EscapeString(f.center) else ""),
      ("MODEL_PATH", ModelImportPath(f.model)),
      ("CENTER_ROTATION", IntToString(f.angle)),
      ("NEED_BUMP", BoolString(f.needBump)) ]
  }

  /** Placeholders are non-empty. */
  predicate ValidKeys(reps: seq<(string, string)>) {
    forall i :: 0 <= i < |reps| ==> |reps[i].0| > 0
  }

  /** What each placeholder receives: a General field fills the three corner
      labels, from which the labels can be read back, and leaves the centre
      empty; a Centered field fills only the centre; any other label type
      fills none. The model index selects one of the three base shapes. */
  lemma ReplacementValues(f: Field)
    ensures ValidKeys(Replacements(f))
    ensures var r := Replacements(f);
      && [r[0].0, r[1].0, r[2].0, r[3].0, r[4].0, r[5].0, r[6].0]
         == ["LLB", "LLT", "LRT", "LC", "MODEL_PATH", "CENTER_ROTATION", "NEED_BUMP"]
      && (f.labelType == 0 ==>
           Unescape(r[0].1) == Some(f.main) && Unescape(r[1].1) == Some(f.shift)
           && Unescape(r[2].1) == Some(f.fn) && r[3].1 == "")
      && (f.labelType == 1 ==>
           r[0].1 == "" && r[1].1 == "" && r[2].1 == "" && Unescape(r[3].1) == Some(f.center))
      && (f.labelType != 0 && f.labelType != 1 ==>
           r[0].1 == "" && r[1].1 == "" && r[2].1 == "" && r[3].1 == "")
      && (0 <= f.model < 3 ==> r[4].1 == ["Cap_U.stl", "Cap_O.stl", "Cap_Flat.stl"][f.model])
      && r[6].1 == (if f.needBump then "true" else "false")
  {
    ReplacementKeys(f);
    EscapeRoundTrip(f.main);
    EscapeRoundTrip(f.shift);
    EscapeRoundTrip(f.fn);
    EscapeRoundTrip(f.center);
  }

  /** The seven placeholders, none of which holds a `$`. */
  lemma ReplacementKeys(f: Field)
    ensures ValidKeys(Replacements(f))
    ensures var r := Replacements(f);
      && [r[0].0, r[1].0, r[2].0, r[3].0, r[4].0, r[5].0, r[6].0]
         == ["LLB", "LLT", "LRT", "LC", "MODEL_PATH", "CENTER_ROTATION", "NEED_BUMP"]
      && forall i :: 0 <= i < |r| ==> '$' !in r[i].0
  {
  }

  // ---------------------------------------------------------------------------
  // Substitution into the template

  /** The template with each placeholder replaced globally, one placeholder
      after the other in map order, each step working on the previous
      step's result. */
  function Substitute(template: string, reps: seq<(string, string)>): string
    requires ValidKeys(reps)
    decreases |reps|
  {
    if |reps| == 0 then template
    else Substitute(ReplaceAll(template, reps[0].0, reps[0].1), reps[1..])
  }

  /** The same substitution with the source's `$`-expanding replacement. */
  function SubstituteAsWritten(template: string, reps: seq<(string, string)>): string
    requires ValidKeys(reps)
    decreases |reps|
  {
    if |reps| == 0 then template
    else SubstituteAsWritten(ReplaceAllAsWritten(template, reps[0].0, reps[0].1), reps[1..])
  }

  /** The loop `for (const [key, value] of Object.entries(replacements))
      customKeycap = customKeycap.replace(...)`, with literal insertion. */
  method SubstituteTemplate(template: string, reps: seq<(string, string)>) returns (script: string)
    requires ValidKeys(reps)
    ensures script == Substitute(template, reps)
  {
    script := template;
    for i := 0 to |reps|
      invariant Substitute(script, reps[i..]) == Substitute(template, reps)
    {
      assert reps[i..][1..] == reps[i + 1..];
      script := ReplaceAll(script, reps[i].0, reps[i].1);
    }
  }

  /** The script of one field. */
  function FieldScript(template: string, f: Field): string {
    ReplacementKeys(f);
    Substitute(template, Replacements(f))
  }

  /** When no label holds a `$`, the source's substitution is the literal one. */
  lemma {:induction false} SubstituteAsWrittenPlain(template: string, reps: seq<(string, string)>)
    requires ValidKeys(reps)
    requires forall i :: 0 <= i < |reps| ==> '$' !in reps[i].1
    ensures SubstituteAsWritten(template, reps) == Substitute(template, reps)
    decreases |reps|
  {
    if |reps| > 0 {
      ReplaceAllAsWrittenPlain(template, reps[0].0, reps[0].1);
      SubstituteAsWrittenPlain(ReplaceAll(template, reps[0].0, reps[0].1), reps[1..]);
    }
  }

  /** When no label holds a `$`, no placeholder value does, so the script
      the source builds with its `$`-expanding replacement is `FieldScript`. */
  lemma FieldScriptAsWritten(template: string, f: Field)
    requires '$' !in f.main && '$' !in f.shift && '$' !in f.fn && '$' !in f.center
    ensures SubstituteAsWritten(template, Replacements(f)) == FieldScript(template, f)
  {
    ReplacementKeys(f);
    EscapeStringNoDollar(f.main);
    EscapeStringNoDollar(f.shift);
    EscapeStringNoDollar(f.fn);
    EscapeStringNoDollar(f.center);
    var r := Replacements(f);
    var angle := IntToString(f.angle);
    assert '$' !in angle by {
      forall k | 0 <= k < |angle| ensures angle[k] != '$' {
      }
    }
    assert forall i :: 0 <= i < |r| ==> '$' !in r[i].1;
    SubstituteAsWrittenPlain(template, r);
  }

  /** A placeholder missing from the text leaves it unchanged. */
  lemma {:induction false} ReplaceAbsent(s: string, t: string, v: string)
    requires |t| > 0 && !Contains(s, t)
    ensures ReplaceAll(s, t, v) == s
    decreases |s|
  {
    if |s| >= |t| {
      assert !OccursAt(s, t, 0);
      assert !Contains(s[1..], t) by {
        forall j: nat | j <= |s[1..]| ensures !OccursAt(s[1..], t, j) {
          assert !OccursAt(s, t, j + 1);
        }
      }
      ReplaceAbsent(s[1..], t, v);
      assert s == [s[0]] + s[1..];
    }
  }

  lemma {:induction false} ReplaceFromAbsent(s: string, t: string, v: string, i: nat)
    requires |t| > 0 && i <= |s| && !Contains(s, t)
    ensures ReplaceFromAsWritten(s, t, v, i) == s[i..]
    decreases |s| - i
  {
    if |s| - i >= |t| {
      assert !OccursAt(s, t, i);
      ReplaceFromAbsent(s, t, v, i + 1);
      assert s[i..] == [s[i]] + s[i + 1..];
    }
  }

  /** A text lacking one of the placeholder's characters does not hold it. */
  lemma CharAbsent(s: string, t: string, c: char)
    requires c in t && c !in s
    ensures !Contains(s, t)
  {
    forall j: nat | j <= |s| ensures !OccursAt(s, t, j) {}
  }

  /** A General key labelled `$$`: the source writes a single `$` into the
      script, where literal insertion writes the label. */
  lemma DollarLabelCollapses(f: Field)
    requires f.labelType == 0 && f.main == "$$"
    ensures SubstituteAsWritten("LLB", Replacements(f)) == "$"
    ensures FieldScript("LLB", f) == "$$"
  {
    var reps := Replacements(f);
    ReplacementKeys(f);
    DollarLabelEscaped(f);
    DollarExpands();
    assert ValidKeys(reps[1..]) && forall i :: 0 <= i < |reps[1..]| ==> '$' !in reps[1..][i].0;
    DollarsHoldNoKey("$", reps[1..]);
    DollarsHoldNoKey("$$", reps[1..]);
    SubstituteAbsent("$", reps[1..]);
    SubstituteAbsent("$$", reps[1..]);
  }

  lemma DollarLabelEscaped(f: Field)
    requires f.labelType == 0 && f.main == "$$"
    ensures Replacements(f)[0] == ("LLB", "$$")
  {
    EscapeStringKeeps(f.main);
  }

  /** As a replacement pattern, `$$` stands for one `$`. */
  lemma DollarExpands()
    ensures ReplaceAllAsWritten("LLB", "LLB", "$$") == "$"
    ensures ReplaceAll("LLB", "LLB", "$$") == "$$"
  {
  }

  /** A run of dollar signs holds no placeholder free of `$`. */
  lemma DollarsHoldNoKey(s: string, reps: seq<(string, string)>)
    requires forall k :: 0 <= k < |s| ==> s[k] == '$'
    requires ValidKeys(reps) && forall i :: 0 <= i < |reps| ==> '$' !in reps[i].0
    ensures forall i :: 0 <= i < |reps| ==> !Contains(s, reps[i].0)
  {
    forall i | 0 <= i < |reps| ensures !Contains(s, reps[i].0) {
      var key := reps[i].0;
      assert key[0] in key;
      CharAbsent(s, key, key[0]);
    }
  }

  /** Substituting into a text that holds none of the placeholders changes
      nothing, in both readings of the replacement. */
  lemma {:induction false} SubstituteAbsent(s: string, reps: seq<(string, string)>)
    requires ValidKeys(reps)
    requires forall i :: 0 <= i < |reps| ==> !Contains(s, reps[i].0)
    ensures Substitute(s, reps) == s && SubstituteAsWritten(s, reps) == s
    decreases |reps|
  {
    if |reps| > 0 {
      ReplaceAbsent(s, reps[0].0, reps[0].1);
      ReplaceFromAbsent(s, reps[0].0, reps[0].1, 0);
      assert s[0..] == s;
      SubstituteAbsent(s, reps[1..]);
    }
  }

  /** Substituting a list of placeholders is substituting a prefix of it,
      then the rest. */
  lemma {:induction false} SubstituteSplit(s: string, reps: seq<(string, string)>, k: nat)
    requires ValidKeys(reps) && k <= |reps|
    ensures Substitute(s, reps) == Substitute(Substitute(s, reps[..k]), reps[k..])
    decreases k
  {
    if k > 0 {
      SubstituteSplit(ReplaceAll(s, reps[0].0, reps[0].1), reps[1..], k - 1);
      assert reps[1..][..k - 1] == reps[..k][1..];
      assert reps[1..][k - 1..] == reps[k..];
    } else {
      assert reps[0..] == reps;
    }
  }

  /** `LLT` does not occur in `LMODEL_PATH`: the two `L`s there are not
      followed by another `L`. */
  lemma NoDoubleL()
    ensures !Contains("LMODEL_PATH", "LLT")
  {
    var s, t := "LMODEL_PATH", "LLT";
    forall j: nat | j <= |s| ensures !OccursAt(s, t, j) {
      assert j + 3 <= |s| ==> s[j..j + 3][0] == s[j] && s[j..j + 3][1] == s[j + 1];
    }
  }

  lemma BoundaryFacts()
    ensures !Contains("LMODEL_PATH", "LLB") && !Contains("LMODEL_PATH", "LLT")
    ensures !Contains("LMODEL_PATH", "LRT") && !Contains("LMODEL_PATH", "LC")
    ensures !Contains("LCap_U.stl", "CENTER_ROTATION") && !Contains("LCap_U.stl", "NEED_BUMP")
  {
    CharAbsent("LMODEL_PATH", "LLB", 'B');
    NoDoubleL();
    CharAbsent("LMODEL_PATH", "LRT", 'R');
    CharAbsent("LMODEL_PATH", "LC", 'C');
    CharAbsent("LCap_U.stl", "CENTER_ROTATION", 'N');
    CharAbsent("LCap_U.stl", "NEED_BUMP", 'N');
  }

  lemma BoundaryReplace(v: string)
    ensures ReplaceAll("LMODEL_PATH", "MODEL_PATH", v) == "L" + v
  {
    var s, t := "LMODEL_PATH", "MODEL_PATH";
    assert s[..|t|] != t by {
      assert s[..|t|][0] != t[0];
    }
    assert s[1..] == t;
    assert ReplaceAll(t, t, v) == v + ReplaceAll(t[|t|..], t, v);
    assert t[|t|..] == "";
  }

  /** A substitution in which a single placeholder occurs, at the time its
      turn comes, changes only that placeholder. */
  lemma SubstituteOneHit(s0: string, s1: string, reps: seq<(string, string)>, k: nat)
    requires ValidKeys(reps) && k < |reps|
    requires forall i :: 0 <= i < k ==> !Contains(s0, reps[i].0)
    requires ReplaceAll(s0, reps[k].0, reps[k].1) == s1
    requires forall i :: k < i < |reps| ==> !Contains(s1, reps[i].0)
    ensures Substitute(s0, reps) == s1
  {
    SubstituteSplit(s0, reps, k);
    SubstituteAbsent(s0, reps[..k]);
    assert reps[k..][1..] == reps[k + 1..];
    SubstituteAbsent(s1, reps[k + 1..]);
  }

  /** Substitution can create a placeholder that an earlier step already
      handled: a `L` before `MODEL_PATH` becomes `LCap_U.stl`, which holds
      `LC`, although no value contains a placeholder. */
  lemma PlaceholderFormedAcrossBoundary()
    ensures Contains(FieldScript("LMODEL_PATH", DefaultField()), "LC")
  {
    var f := DefaultField();
    var reps := Replacements(f);
    ReplacementValues(f);
    BoundaryFacts();
    BoundaryReplace("Cap_U.stl");
    SubstituteOneHit("LMODEL_PATH", "LCap_U.stl", reps, 4);
    assert OccursAt("LCap_U.stl", "LC", 0);
  }

  // ---------------------------------------------------------------------------
  // File name of one exported mesh

  /** The exported file's name, the template literal of each label type. */
  function Filename(f: Field): string {
    var bump := if f.needBump then "Bump" else "";
    if f.labelType == 0 then
      "Keycap_" + MakeFilenameSafe(f.main) + "_" + MakeFilenameSafe(f.shift) + "_" + MakeFilenameSafe(f.fn)
        + "_" + bump + "_" + ModelTag(f.model) + ".stl"
    else
      "Keycap_" + MakeFilenameSafe(f.center) + "_" + IntToString(f.angle) + "_" + bump + "_" + ModelTag(f.model) + ".stl"
  }

  /** A safe string with a prefix, grown by a safe piece, stays safe and
      keeps the prefix. */
  lemma Grow(s: string, piece: string, prefix: string)
    requires FilenameSafe(s) && FilenameSafe(piece) && StartsWith(s, prefix)
    ensures FilenameSafe(s + piece) && StartsWith(s + piece, prefix)
  {
    SafeConcat(s, piece);
    assert (s + piece)[..|prefix|] == s[..|prefix|];
  }

  lemma EndsWithAppended(s: string, suffix: string)
    ensures EndsWith(s + suffix, suffix)
  {
    assert (s + suffix)[|s + suffix| - |suffix|..] == suffix;
  }

  lemma TagSafe(model: int)
    ensures FilenameSafe(ModelTag(model))
  {
    assert LowerCaseWord(ModelTag(model)) || |ModelTag(model)| == 1;
  }

  lemma FrameSafe()
    ensures FilenameSafe("Keycap_") && FilenameSafe("_") && FilenameSafe(".stl")
  {
  }

  lemma BumpSafe()
    ensures FilenameSafe("Bump")
  {
  }

  lemma NumberSafe(n: int)
    ensures FilenameSafe(IntToString(n))
  {
  }

  /** The file name holds none of `/ \\ : * ? " < > |`, starts with
      `Keycap_` and ends with `.stl`. */
  lemma FilenameIsSafe(f: Field)
    ensures FilenameSafe(Filename(f))
    ensures StartsWith(Filename(f), "Keycap_") && EndsWith(Filename(f), ".stl")
  {
    var k := "Keycap_";
    var bump := if f.needBump then "Bump" else "";
    var tag := ModelTag(f.model);
    TagSafe(f.model);
    BumpSafe();
    FrameSafe();
    assert FilenameSafe(bump) && StartsWith(k, k);
    if f.labelType == 0 {
      var a, b, c := MakeFilenameSafe(f.main), MakeFilenameSafe(f.shift), MakeFilenameSafe(f.fn);
      MakeFilenameSafeIsSafe(f.main);
      MakeFilenameSafeIsSafe(f.shift);
      MakeFilenameSafeIsSafe(f.fn);
      Grow(k, a, k);
      Grow(k + a, "_", k);
      Grow(k + a + "_", b, k);
      Grow(k + a + "_" + b, "_", k);
      Grow(k + a + "_" + b + "_", c, k);
      Grow(k + a + "_" + b + "_" + c, "_", k);
      Grow(k + a + "_" + b + "_" + c + "_", bump, k);
      Grow(k + a + "_" + b + "_" + c + "_" + bump, "_", k);
      Grow(k + a + "_" + b + "_" + c + "_" + bump + "_", tag, k);
      Grow(k + a + "_" + b + "_" + c + "_" + bump + "_" + tag, ".stl", k);
      EndsWithAppended(k + a + "_" + b + "_" + c + "_" + bump + "_" + tag, ".stl");
    } else {
      var a, n := MakeFilenameSafe(f.center), IntToString(f.angle);
      MakeFilenameSafeIsSafe(f.center);
      NumberSafe(f.angle);
      Grow(k, a, k);
      Grow(k + a, "_", k);
      Grow(k + a + "_", n, k);
      Grow(k + a + "_" + n, "_", k);
      Grow(k + a + "_" + n + "_", bump, k);
      Grow(k + a + "_" + n + "_" + bump, "_", k);
      Grow(k + a + "_" + n + "_" + bump + "_", tag, k);
      Grow(k + a + "_" + n + "_" + bump + "_" + tag, ".stl", k);
      EndsWithAppended(k + a + "_" + n + "_" + bump + "_" + tag, ".stl");
    }
  }

  /** Different fields can share a file name: in a General key's name `/`
      and the word `slash` spell the same, and the centre label and the
      angle do not appear. */
  lemma FilenameNotInjective(f: Field, center: string, angle: int)
    requires f.labelType == 0
    ensures Filename(f.(main := "/")) == Filename(f.(main := "slash"))
    ensures Filename(f) == Filename(f.(center := center, angle := angle))
  {
    SlashSpelled("/", "slash");
  }

  /** `makeFilenameSafe` turns `/` into `slash`, which it keeps. */
  lemma SlashSpelled(slash: string, word: string)
    requires slash == "/" && word == "slash"
    ensures MakeFilenameSafe(slash) == word && MakeFilenameSafe(word) == word
  {
    SlashToWord(slash, word);
    WordKept(word);
  }

  lemma SlashToWord(slash: string, word: string)
    requires slash == "/" && word == "slash"
    ensures MakeFilenameSafe(slash) == word
  {
    MakeFilenameSafePerChar(slash);
    assert SafeEach(slash) == SafeChar('/') + SafeEach(slash[1..]);
  }

  lemma WordKept(word: string)
    requires forall i :: 0 <= i < |word| ==> 'a' <= word[i] <= 'z' || 'A' <= word[i] <= 'Z'
    ensures MakeFilenameSafe(word) == word
  {
    MakeFilenameSafeProperties(word);
  }

  /** The first field of the worked example: a General key labelled `Q` on
      the Normal shape, whatever its centre label and angle. */
  lemma ExampleGeneralFilename(f: Field)
    requires f.labelType == 0 && f.main == "Q" && f.shift == "" && f.fn == "" && !f.needBump && f.model == 0
    ensures Filename(f) == "Keycap_Q____U.stl"
  {
    WordKept("Q");
    WordKept("");
    GeneralSpelled();
  }

  lemma GeneralSpelled()
    ensures "Keycap_" + "Q" + "_" + "" + "_" + "" + "_" + "" + "_" + "U" + ".stl" == "Keycap_Q____U.stl"
  {
    assert "Keycap_" + "Q" == "Keycap_Q";
    assert "Keycap_Q" + "_" + "" == "Keycap_Q_";
    assert "Keycap_Q_" + "_" + "" == "Keycap_Q__";
    assert "Keycap_Q__" + "_" + "" == "Keycap_Q___";
    assert "Keycap_Q___" + "_" + "U" == "Keycap_Q____U";
  }

  /** The second field of the worked example: a Centered key labelled `▲`,
      turned 30 degrees, with a bump, on the Flat shape. */
  lemma ExampleCenteredFilename(f: Field)
    requires f.labelType == 1 && f.center == "▲" && f.angle == 30 && f.needBump && f.model == 2
    ensures Filename(f) == "Keycap_▲_30_Bump_F.stl"
  {
    TriangleKept();
    ThirtyDigits();
    CenteredSpelled();
  }

  lemma ThirtyDigits()
    ensures IntToString(30) == "30"
  {
  }

  lemma CenteredSpelled()
    ensures "Keycap_" + "▲" + "_" + "30" + "_" + "Bump" + "_" + "F" + ".stl" == "Keycap_▲_30_Bump_F.stl"
  {
    assert "Keycap_" + "▲" == "Keycap_▲";
    assert "Keycap_▲" + "_" == "Keycap_▲_";
    assert "Keycap_▲_" + "30" == "Keycap_▲_30";
    assert "Keycap_▲_30" + "_" == "Keycap_▲_30_";
    assert "Keycap_▲_30_" + "Bump" == "Keycap_▲_30_Bump";
    assert "Keycap_▲_30_Bump" + "_" == "Keycap_▲_30_Bump_";
    assert "Keycap_▲_30_Bump_" + "F" == "Keycap_▲_30_Bump_F";
  }

  lemma TriangleKept()
    ensures MakeFilenameSafe("▲") == "▲"
  {
    MakeFilenameSafeProperties("▲");
    assert FilenameSafe("▲");
  }
}
