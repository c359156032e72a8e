/** The placeholder renderer of the exporter (`renderString`): every `{{...}}` that the
    lazy, global regular expression `/{{.*?}}/g` finds in a template is looked up, by its
    trimmed inside, in a context of already stringified values.

    Two renderers are modelled:
    - `Render`/`RenderString` is the renderer as written: for each match, in order, the
      FIRST occurrence of the match text in the partially rendered string is replaced;
    - `RenderIntended` replaces every placeholder in place, leaving unknown ones verbatim.
    `RenderAgrees` proves the two equal on ordinary templates and values, and two
    concrete lemmas exhibit inputs on which they differ. */
module Template {
  import opened Wrappers
  import opened TextUtil

  type Context = map<string, string>

  // ---------------------------------------------------------------------------
  // The regular expression /{{.*?}}/g

  /** `.` in a JavaScript regular expression matches every character but these. */
  predicate IsLineTerminator(c: char)
  {
    c == '\n' || c == '\r' || c as int == 0x2028 || c as int == 0x2029
  }

  predicate OpensAt(s: string, i: nat)
  {
    i + 1 < |s| && s[i] == '{' && s[i + 1] == '{'
  }

  predicate ClosesAt(s: string, i: nat)
  {
    i + 1 < |s| && s[i] == '}' && s[i + 1] == '}'
  }

  /** The lazy `.*?}}` tried from position `k`: the first `}}` at or after `k`,
      provided no line terminator comes before it. */
  function CloseFrom(s: string, k: nat): (r: Option<nat>)
    requires k <= |s|
    decreases |s| - k
    ensures r.Some? ==> k <= r.value && ClosesAt(s, r.value)
    ensures r.Some? ==> forall i :: k <= i < r.value ==> !IsLineTerminator(s[i])
    ensures r.Some? ==> forall i :: k <= i < r.value ==> !ClosesAt(s, i)
    ensures r.None? ==> forall j :: k <= j && ClosesAt(s, j) ==>
                          exists i :: k <= i < j && IsLineTerminator(s[i])
  {
    if ClosesAt(s, k) then Some(k)
    else if k < |s| && !IsLineTerminator(s[k]) then CloseFrom(s, k + 1)
    else None
  }

  /** The end of the match that starts at `p`, if the expression matches there. */
  function MatchAt(s: string, p: nat): (r: Option<nat>)
    requires p <= |s|
    ensures r.Some? ==> p + 4 <= r.value <= |s|
  {
    if OpensAt(s, p) then
      match CloseFrom(s, p + 2)
      case Some(k) => Some(k + 2)
      case None => None
    else None
  }

  /** The shape of every match: `{{`, then characters that are not line terminators
      and hold no `}}` (nor end in `}`), then `}}`. */
  predicate IsPlaceholder(m: string)
  {
    && |m| >= 4 && OpensAt(m, 0) && ClosesAt(m, |m| - 2)
    && (forall i :: 2 <= i < |m| - 2 ==> !IsLineTerminator(m[i]))
    && (forall i :: 2 <= i < |m| - 2 ==> !ClosesAt(m, i))
  }

  /** Some `{{` in `s` is closed by a `}}` later on the same line. */
  ghost predicate HasPlaceholder(s: string)
  {
    exists i: nat, k: nat :: i + 2 <= k && OpensAt(s, i) && ClosesAt(s, k)
                             && forall j :: i + 2 <= j < k ==> !IsLineTerminator(s[j])
  }

  // ---------------------------------------------------------------------------
  // A template split at its matches

  /** A match and the literal text up to the next match (or the end). */
  datatype Slot = Slot(placeholder: string, after: string)

  /** A template as literal text followed by match/literal pairs. */
  datatype Split = Split(head: string, slots: seq<Slot>)

  /** The matches and literals of `slots`, as they stand in the template. */
  function Raw(slots: seq<Slot>): string
  {
    if slots == [] then "" else slots[0].placeholder + slots[0].after + Raw(slots[1..])
  }

  /** The global match loop of the regular expression: from `p` on, `s[from..p]` being
      literal text already passed over. A match resumes the search at its end. */
  function ScanFrom(s: string, from: nat, p: nat): Split
    requires from <= p <= |s|
    decreases |s| - p
  {
    if p == |s| then Split(s[from..], [])
    else
      match MatchAt(s, p)
      case Some(e) =>
        var rest := ScanFrom(s, e, e);
        Split(s[from..p], [Slot(s[p..e], rest.head)] + rest.slots)
      case None => ScanFrom(s, from, p + 1)
  }

  /** From position `p` on, the global search passes over `literal` characters without
      a match starting among them, and then finds the matches of `slots` in turn: each
      placeholder is the match starting where the literal text before it ends, and the
      search resumes after it, passing over the slot's literal text. */
  ghost predicate FindsAll(s: string, p: nat, literal: nat, slots: seq<Slot>)
    decreases |slots|
  {
    && p + literal <= |s|
    && (forall q :: p <= q < p + literal ==> MatchAt(s, q).None?)
    && (slots != [] ==>
          var e := p + literal + |slots[0].placeholder|;
          && e <= |s|
          && MatchAt(s, p + literal) == Some(e)
          && FindsAll(s, e, |slots[0].after|, slots[1..]))
  }

  /** The scan from `p`, with no match starting in the text passed over since `from`,
      finds every match: none starts in its literal head, and its slots are the
      successive matches after the head. */
  lemma {:induction false} ScanExact(s: string, from: nat, p: nat)
    requires from <= p <= |s|
    requires forall q :: from <= q < p ==> MatchAt(s, q).None?
    ensures FindsAll(s, from, |ScanFrom(s, from, p).head|, ScanFrom(s, from, p).slots)
    decreases |s| - p
  {
    if p < |s| {
      match MatchAt(s, p)
      case Some(e) =>
        ScanExact(s, e, e);
        var rest := ScanFrom(s, e, e);
        var slots := [Slot(s[p..e], rest.head)] + rest.slots;
        assert slots[1..] == rest.slots;
        assert FindsAll(s, from, p - from, slots);
      case None =>
        ScanExact(s, from, p + 1);
    }
  }

  /** The split puts the scanned text back together: literal text and matches, in order. */
  lemma {:induction false} ScanCovers(s: string, from: nat, p: nat)
    requires from <= p <= |s|
    ensures ScanFrom(s, from, p).head + Raw(ScanFrom(s, from, p).slots) == s[from..]
    decreases |s| - p
  {
    if p < |s| {
      match MatchAt(s, p)
      case Some(e) =>
        ScanCovers(s, e, e);
        ScanStep(s, from, p, e, ScanFrom(s, e, e));
      case None =>
        ScanCovers(s, from, p + 1);
    }
  }

  /** Every match of the scan has the placeholder shape. */
  lemma {:induction false} ScanShapes(s: string, from: nat, p: nat)
    requires from <= p <= |s|
    ensures WellShaped(ScanFrom(s, from, p))
    decreases |s| - p
  {
    if p < |s| {
      match MatchAt(s, p)
      case Some(e) =>
        ScanShapes(s, e, e);
        MatchShape(s, p);
        var rest := ScanFrom(s, e, e);
        var slots := [Slot(s[p..e], rest.head)] + rest.slots;
        assert forall i :: 1 <= i < |slots| ==> slots[i] == rest.slots[i - 1];
      case None =>
        ScanShapes(s, from, p + 1);
    }
  }

  /** A match and the split after it make up the rest of the text. */
  lemma ScanStep(s: string, from: nat, p: nat, e: nat, rest: Split)
    requires from <= p <= e <= |s| && rest.head + Raw(rest.slots) == s[e..]
    ensures s[from..p] + Raw([Slot(s[p..e], rest.head)] + rest.slots) == s[from..]
  {
    var slots := [Slot(s[p..e], rest.head)] + rest.slots;
    assert slots[1..] == rest.slots;
    assert Raw(slots) == (s[p..e] + rest.head) + Raw(rest.slots);
    Assoc3(s[p..e], rest.head, Raw(rest.slots));
    assert s[p..] == s[p..e] + s[e..];
    assert s[from..] == s[from..p] + s[p..];
  }

  /** Every text the regular expression matches has the placeholder shape. */
  lemma MatchShape(s: string, p: nat)
    requires p <= |s| && MatchAt(s, p).Some?
    ensures p + 4 <= MatchAt(s, p).value <= |s|
    ensures IsPlaceholder(s[p..MatchAt(s, p).value])
  {
    var e := MatchAt(s, p).value;
    var m := s[p..e];
    forall i | 2 <= i < |m| - 2
      ensures !IsLineTerminator(m[i]) && !ClosesAt(m, i)
    {
      assert m[i] == s[p + i] && m[i + 1] == s[p + i + 1];
      assert !ClosesAt(s, p + i);
    }
  }

  /** The template split at the matches of the expression. */
  function Parse(s: string): Split
  {
    ScanFrom(s, 0, 0)
  }

  /** Splitting a template loses and invents nothing, and every match it records has
      the placeholder shape. */
  lemma ParseSound(s: string)
    ensures Parse(s).head + Raw(Parse(s).slots) == s
    ensures WellShaped(Parse(s))
  {
    ScanCovers(s, 0, 0);
    ScanShapes(s, 0, 0);
    assert s[0..] == s;
  }

  /** `inputString.match(/{{.*?}}/g)`, with no match giving the empty sequence: every
      match has the placeholder shape, and the template is a literal head followed by
      the matches, in order and without overlap, each followed by the literal text up to
      the next one. `MatchesComplete` shows they are all the global search finds. */
  function Matches(s: string): (ms: seq<string>)
    ensures forall i :: 0 <= i < |ms| ==> IsPlaceholder(ms[i])
    ensures |ms| == |Parse(s).slots|
    ensures forall i :: 0 <= i < |ms| ==> ms[i] == Parse(s).slots[i].placeholder
    ensures Parse(s).head + Raw(Parse(s).slots) == s
  {
    ParseSound(s);
    var slots := Parse(s).slots;
    seq(|slots|, i requires 0 <= i < |slots| => slots[i].placeholder)
  }

  /** The matches are all the global search finds: no match starts in the head or in a
      literal text, and each match starts where the literal text before it ends and
      ends where the lazy `.*?}}` stops. */
  lemma MatchesComplete(s: string)
    ensures |Matches(s)| == |Parse(s).slots|
    ensures FindsAll(s, 0, |Parse(s).head|, Parse(s).slots)
  {
    ScanExact(s, 0, 0);
  }

  // ---------------------------------------------------------------------------
  // The renderer as written

  /** `match.slice(2, -2).trim()`: the key a match stands for. */
  function Key(m: string): string
  {
    if |m| >= 4 then Trim(m[2..|m| - 2]) else ""
  }

  /** One turn of the loop: a known key replaces the first occurrence of the match. */
  function Step(r: string, m: string, ctx: Context): string
  {
    if Key(m) in ctx then ReplaceFirst(r, m, ctx[Key(m)]) else r
  }

  /** The loop run over the matches `ms`, in order. */
  function ApplyMatches(s: string, ms: seq<string>, ctx: Context): string
  {
    if ms == [] then s else Step(ApplyMatches(s, ms[..|ms| - 1], ctx), ms[|ms| - 1], ctx)
  }

  /** What `renderString(s, ctx)` returns. */
  function Render(s: string, ctx: Context): string
  {
    ApplyMatches(s, Matches(s), ctx)
  }

  /** `renderString`: the match loop that reassigns the rendered string. */
  method RenderString(inputString: string, context: Context) returns (rendered: string)
    ensures rendered == Render(inputString, context)
  {
    var matches := Matches(inputString);
    if |matches| == 0 {
      return inputString;
    }
    rendered := inputString;
    for i := 0 to |matches|
      invariant rendered == ApplyMatches(inputString, matches[..i], context)
    {
      ApplyMatchesPrefix(inputString, matches, context, i + 1);
      var found := matches[i];
      var trimmedMatch := Key(found);
      if trimmedMatch !in context {
        continue;
      }
      rendered := ReplaceFirst(rendered, found, context[trimmedMatch]);
    }
    assert matches[..|matches|] == matches;
  }

  // ---------------------------------------------------------------------------
  // The renderer as intended

  /** What a placeholder becomes: its value when its key is known, itself otherwise. */
  function Fill(m: string, ctx: Context): string
  {
    if Key(m) in ctx then ctx[Key(m)] else m
  }

  /** The slots with every placeholder filled in place. */
  function Filled(slots: seq<Slot>, ctx: Context): string
  {
    if slots == [] then ""
    else Filled(slots[..|slots| - 1], ctx) + Fill(slots[|slots| - 1].placeholder, ctx) + slots[|slots| - 1].after
  }

  /** The template with every placeholder replaced in place by its value, unknown
      placeholders and all literal text kept verbatim, values never rescanned. */
  function RenderIntended(s: string, ctx: Context): string
  {
    Parse(s).head + Filled(Parse(s).slots, ctx)
  }

  // ---------------------------------------------------------------------------
  // What the matcher finds

  /** The lazy search succeeds whenever a `}}` follows on the same line. */
  lemma {:induction false} CloseFromFinds(s: string, k: nat, j: nat)
    requires k <= j && ClosesAt(s, j)
    requires forall i :: k <= i < j ==> !IsLineTerminator(s[i])
    ensures CloseFrom(s, k).Some?
    decreases j - k
  {
    if !ClosesAt(s, k) {
      assert k < j;
      CloseFromFinds(s, k + 1, j);
    }
  }

  /** A scan that reaches a placeholder's opening finds some match. */
  lemma {:induction false} ScanFinds(s: string, from: nat, p: nat, i: nat, k: nat)
    requires from <= p <= i && i + 2 <= k && OpensAt(s, i) && ClosesAt(s, k)
    requires forall j :: i + 2 <= j < k ==> !IsLineTerminator(s[j])
    ensures |ScanFrom(s, from, p).slots| > 0
    decreases i - p
  {
    if p == i {
      CloseFromFinds(s, i + 2, k);
      ScanAtMatch(s, from, p);
    } else if MatchAt(s, p).None? {
      ScanPastMiss(s, from, p);
      ScanFinds(s, from, p + 1, i, k);
    } else {
      ScanAtMatch(s, from, p);
    }
  }

  lemma ScanAtMatch(s: string, from: nat, p: nat)
    requires from <= p < |s| && MatchAt(s, p).Some?
    ensures |ScanFrom(s, from, p).slots| > 0
  {
  }

  lemma ScanPastMiss(s: string, from: nat, p: nat)
    requires from <= p < |s| && MatchAt(s, p).None?
    ensures ScanFrom(s, from, p) == ScanFrom(s, from, p + 1)
  {
  }

  /** The regular expression finds no match exactly when no `{{` is closed by a `}}`
      on the same line. */
  lemma MatchesIffPlaceholder(s: string)
    ensures Matches(s) == [] <==> !HasPlaceholder(s)
  {
    var sp := Parse(s);
    if HasPlaceholder(s) {
      var i: nat, k: nat :| i + 2 <= k && OpensAt(s, i) && ClosesAt(s, k)
                            && forall j :: i + 2 <= j < k ==> !IsLineTerminator(s[j]);
      ScanFinds(s, 0, 0, i, k);
    }
    if |sp.slots| > 0 {
      ParseSound(s);
      Assoc3(sp.slots[0].placeholder, sp.slots[0].after, Raw(sp.slots[1..]));
      PlaceholderInside(s, sp.head, sp.slots[0].placeholder, sp.slots[0].after + Raw(sp.slots[1..]));
    }
  }

  /** A text holding a match holds a placeholder. */
  lemma PlaceholderInside(s: string, x: string, m: string, y: string)
    requires IsPlaceholder(m) && s == x + (m + y)
    ensures HasPlaceholder(s)
  {
    var n := |x|;
    assert s[n..n + |m|] == m;
    forall j | n + 2 <= j < n + |m| - 2
      ensures !IsLineTerminator(s[j])
    {
      assert s[j] == m[j - n];
    }
    assert s[n] == m[0] && s[n + 1] == m[1];
    assert s[n + |m| - 2] == m[|m| - 2] && s[n + |m| - 1] == m[|m| - 1];
    assert OpensAt(s, n) && ClosesAt(s, n + |m| - 2);
  }

  /** A placeholder standing at `p` is what the expression matches there. */
  lemma MatchOfPlaceholder(s: string, p: nat, e: nat)
    requires p <= e <= |s| && IsPlaceholder(s[p..e])
    ensures MatchAt(s, p) == Some(e)
  {
    var m := s[p..e];
    assert s[p] == m[0] && s[p + 1] == m[1];
    assert s[e - 2] == m[|m| - 2] && s[e - 1] == m[|m| - 1];
    forall j | p + 2 <= j < e - 2
      ensures !IsLineTerminator(s[j])
    {
      assert s[j] == m[j - p];
    }
    CloseFromFinds(s, p + 2, e - 2);
    var v := CloseFrom(s, p + 2).value;
    assert ClosesAt(s, e - 2);
    assert m[v - p] == s[v] && m[v - p + 1] == s[v + 1];
    FirstClose(m, v - p);
  }

  /** The scan passes over text in which no `{{` opens. */
  lemma {:induction false} ScanSkip(s: string, from: nat, p: nat, q: nat)
    requires from <= p <= q <= |s|
    requires forall i :: p <= i < q ==> !OpensAt(s, i)
    ensures ScanFrom(s, from, p) == ScanFrom(s, from, q)
    decreases q - p
  {
    if p < q {
      ScanPastMiss(s, from, p);
      ScanSkip(s, from, p + 1, q);
    }
  }

  /** The scan takes a placeholder standing at `p` as its next match. */
  lemma ScanOver(s: string, from: nat, p: nat, e: nat)
    requires from <= p <= e <= |s| && IsPlaceholder(s[p..e])
    ensures ScanFrom(s, from, p)
            == Split(s[from..p], [Slot(s[p..e], ScanFrom(s, e, e).head)] + ScanFrom(s, e, e).slots)
  {
    MatchOfPlaceholder(s, p, e);
  }

  /** The scan at the end of the text finds nothing more. */
  lemma ScanAtEnd(s: string, from: nat)
    requires from <= |s|
    ensures ScanFrom(s, from, |s|) == Split(s[from..], [])
  {
  }

  /** A template that is a single placeholder splits into that placeholder alone. */
  lemma ParseSingle(m: string)
    requires IsPlaceholder(m)
    ensures Parse(m) == Split("", [Slot(m, "")])
  {
    assert m[0..|m|] == m && m[0..0] == [] && m[|m|..] == [];
    ScanOver(m, 0, 0, |m|);
    ScanAtEnd(m, |m|);
  }

  /** A template that is a single placeholder is filled as a whole, by both renderers. */
  lemma RenderSingle(m: string, ctx: Context)
    requires IsPlaceholder(m)
    ensures Render(m, ctx) == Fill(m, ctx) && RenderIntended(m, ctx) == Fill(m, ctx)
  {
    ParseSingle(m);
    assert Matches(m) == [m];
    ApplyOne(m, m, ctx);
    OneTurn("", m, "", ctx);
    Bare(m);
    Bare(Fill(m, ctx));
    FilledOne(Slot(m, ""), ctx);
  }

  lemma Bare(x: string)
    ensures "" + x + "" == x && "" + x == x
  {
  }

  lemma ApplyOne(s: string, m: string, ctx: Context)
    ensures ApplyMatches(s, [m], ctx) == Step(s, m, ctx)
  {
    assert [m][..0] == [];
  }

  lemma ApplyTwo(s: string, a: string, b: string, ctx: Context)
    ensures ApplyMatches(s, [a, b], ctx) == Step(Step(s, a, ctx), b, ctx)
  {
    assert [a, b][..1] == [a];
    ApplyOne(s, a, ctx);
  }

  lemma FilledOne(slot: Slot, ctx: Context)
    ensures Filled([slot], ctx) == Fill(slot.placeholder, ctx) + slot.after
  {
    assert [slot][..0] == [];
  }

  /** Two placeholders with literal text between them, in which no `{{` opens and
      which does not end in `{`, split into those two placeholders. */
  lemma ParsePair(m1: string, mid: string, m2: string)
    requires IsPlaceholder(m1) && IsPlaceholder(m2) && NoStrayOpen(mid)
    ensures Parse(m1 + mid + m2) == Split("", [Slot(m1, mid), Slot(m2, "")])
  {
    var s := m1 + mid + m2;
    var e1 := |m1|;
    Assoc3(m1, mid, m2);
    SplitConcat(m1, mid + m2);
    ParseTail(s, e1, mid, m2);
    ScanOver(s, 0, 0, e1);
  }

  lemma SplitConcat(a: string, b: string)
    ensures (a + b)[0..|a|] == a && (a + b)[|a|..] == b && (a + b)[0..0] == []
  {
  }

  /** A placeholder followed by text in which no `{{` opens splits into that placeholder
      and that text. */
  lemma ParseWithTail(m: string, t: string)
    requires IsPlaceholder(m) && NoStrayOpen(t)
    ensures Parse(m + t) == Split("", [Slot(m, t)])
  {
    var s := m + t;
    SplitConcat(m, t);
    forall i | |m| <= i < |s|
      ensures !OpensAt(s, i)
    {
      assert s[i] == t[i - |m|];
      if i + 1 < |s| {
        assert s[i + 1] == t[i + 1 - |m|];
        assert !OpensAt(t, i - |m|);
      }
    }
    ScanOver(s, 0, 0, |m|);
    ScanSkip(s, |m|, |m|, |s|);
    ScanAtEnd(s, |m|);
  }

  /** After a first match, the text `mid + m2` scans as literal text and one match. */
  lemma ParseTail(s: string, e1: nat, mid: string, m2: string)
    requires e1 <= |s| && s[e1..] == mid + m2 && IsPlaceholder(m2) && NoStrayOpen(mid)
    ensures ScanFrom(s, e1, e1) == Split(mid, [Slot(m2, "")])
  {
    var p2 := e1 + |mid|;
    assert s[e1..p2] == mid && s[p2..|s|] == m2 && s[|s|..] == [];
    forall i | e1 <= i < p2
      ensures !OpensAt(s, i)
    {
      assert s[i] == mid[i - e1];
      if i + 1 < p2 {
        assert s[i + 1] == mid[i + 1 - e1];
        assert !OpensAt(mid, i - e1);
      }
    }
    ScanSkip(s, e1, e1, p2);
    ScanOver(s, e1, p2, |s|);
    ScanAtEnd(s, |s|);
  }

  /** On two placeholders around text in which no `{{` opens, the renderer as written
      takes two turns and the intended one fills both in place. */
  lemma RenderTwoSteps(s: string, m1: string, mid: string, m2: string, ctx: Context)
    requires s == m1 + mid + m2
    requires IsPlaceholder(m1) && IsPlaceholder(m2) && NoStrayOpen(mid)
    ensures Render(s, ctx) == Step(Step(s, m1, ctx), m2, ctx)
    ensures RenderIntended(s, ctx) == Fill(m1, ctx) + (mid + Fill(m2, ctx))
  {
    assert Render(s, ctx) == Step(Step(s, m1, ctx), m2, ctx) by {
      ParsePair(m1, mid, m2);
      assert Matches(s) == [m1, m2];
      ApplyTwo(s, m1, m2, ctx);
    }
    ParsePair(m1, mid, m2);
    FilledTwo(Slot(m1, mid), Slot(m2, ""), ctx);
    Assoc3(Fill(m1, ctx), mid, Fill(m2, ctx));
    Bare(Fill(m2, ctx));
    Bare(Filled([Slot(m1, mid), Slot(m2, "")], ctx));
  }

  /** `Filled` over two slots. */
  lemma FilledTwo(a: Slot, b: Slot, ctx: Context)
    ensures Filled([a, b], ctx) == Fill(a.placeholder, ctx) + a.after + (Fill(b.placeholder, ctx) + b.after)
  {
    assert [a, b][..1] == [a];
    FilledOne(a, ctx);
  }

  /** On two ordinary placeholders around ordinary text, both renderers fill each
      placeholder in place. */
  lemma RenderPair(s: string, m1: string, mid: string, m2: string, ctx: Context)
    requires s == m1 + mid + m2
    requires IsPlaceholder(m1) && IsPlaceholder(m2) && NoStrayOpen(mid)
    requires NoStrayOpen(m1[1..]) && NoStrayOpen(m2[1..]) && OrdinaryValues(ctx)
    ensures Render(s, ctx) == Fill(m1, ctx) + (mid + Fill(m2, ctx))
    ensures RenderIntended(s, ctx) == Fill(m1, ctx) + (mid + Fill(m2, ctx))
  {
    Assoc3(Fill(m1, ctx), mid, Fill(m2, ctx));
    var sp := Split("", [Slot(m1, mid), Slot(m2, "")]);
    ParsePair(m1, mid, m2);
    assert OrdinarySplit(sp, ctx) by {
      assert NoStrayOpen("");
    }
    RenderAgrees(s, ctx);
    FilledTwo(Slot(m1, mid), Slot(m2, ""), ctx);
    Bare(Fill(m2, ctx));
    Bare(Filled([Slot(m1, mid), Slot(m2, "")], ctx));
  }

  /** A template without placeholders is returned unchanged, whatever the context. */
  lemma RenderWithoutPlaceholders(s: string, ctx: Context)
    requires !HasPlaceholder(s)
    ensures Render(s, ctx) == s
  {
    MatchesIffPlaceholder(s);
  }

  /** Matches whose keys are all missing from the context leave the string unchanged. */
  lemma {:induction false} ApplyUnknown(s: string, ms: seq<string>, ctx: Context)
    requires forall i :: 0 <= i < |ms| ==> Key(ms[i]) !in ctx
    ensures ApplyMatches(s, ms, ctx) == s
  {
    if ms != [] {
      ApplyUnknown(s, ms[..|ms| - 1], ctx);
    }
  }

  /** A template whose placeholders all name missing keys is returned unchanged,
      braces included: with an empty context every template is. */
  lemma RenderUnknownKeys(s: string, ctx: Context)
    requires forall i :: 0 <= i < |Matches(s)| ==> Key(Matches(s)[i]) !in ctx
    ensures Render(s, ctx) == s
  {
    ApplyUnknown(s, Matches(s), ctx);
  }

  /** The literal text of slots followed by one more slot. */
  lemma {:induction false} RawSnoc(slots: seq<Slot>, x: Slot)
    ensures Raw(slots + [x]) == Raw(slots) + (x.placeholder + x.after)
  {
    if slots == [] {
      assert [] + [x] == [x];
      assert [x][1..] == [];
    } else {
      assert (slots + [x])[1..] == slots[1..] + [x];
      RawSnoc(slots[1..], x);
      Assoc3(slots[0].placeholder + slots[0].after, Raw(slots[1..]), x.placeholder + x.after);
    }
  }

  /** Slots whose keys are all unknown are filled with themselves. */
  lemma {:induction false} FilledUnknown(slots: seq<Slot>, ctx: Context)
    requires forall i :: 0 <= i < |slots| ==> Key(slots[i].placeholder) !in ctx
    ensures Filled(slots, ctx) == Raw(slots)
  {
    if slots != [] {
      var init, last := slots[..|slots| - 1], slots[|slots| - 1];
      assert slots == init + [last];
      forall i | 0 <= i < |init|
        ensures Key(init[i].placeholder) !in ctx
      {
        assert init[i] == slots[i];
      }
      FilledUnknown(init, ctx);
      RawSnoc(init, last);
      calc {
        Filled(slots, ctx);
        Filled(init, ctx) + Fill(last.placeholder, ctx) + last.after;
        Raw(init) + last.placeholder + last.after;
        { Assoc3(Raw(init), last.placeholder, last.after); }
        Raw(init + [last]);
      }
    }
  }

  /** The intended renderer also returns a template whose keys are all unknown as it is. */
  lemma RenderIntendedUnknownKeys(s: string, ctx: Context)
    requires forall i :: 0 <= i < |Matches(s)| ==> Key(Matches(s)[i]) !in ctx
    ensures RenderIntended(s, ctx) == s
  {
    ParseSound(s);
    var slots := Parse(s).slots;
    forall i | 0 <= i < |slots|
      ensures Key(slots[i].placeholder) !in ctx
    {
      assert Matches(s)[i] == slots[i].placeholder;
    }
    FilledUnknown(slots, ctx);
  }

  // ---------------------------------------------------------------------------
  // When the renderer as written does what is intended

  /** No `{{` in `t`, and `t` does not end in `{`. */
  predicate NoStrayOpen(t: string)
  {
    (forall i: nat :: i < |t| ==> !OpensAt(t, i)) && (t == [] || t[|t| - 1] != '{')
  }

  /** Each placeholder of `sp` has the match shape. */
  predicate WellShaped(sp: Split)
  {
    forall i :: 0 <= i < |sp.slots| ==> IsPlaceholder(sp.slots[i].placeholder)
  }

  /** An ordinary split and context: `{{` occurs only where a placeholder opens, the
      inside of a placeholder starts with no `{` and holds no `{{`, and no value holds
      `{{` or ends in `{`. */
  predicate OrdinarySplit(sp: Split, ctx: Context)
  {
    && WellShaped(sp)
    && NoStrayOpen(sp.head)
    && (forall i :: 0 <= i < |sp.slots| ==>
          NoStrayOpen(sp.slots[i].placeholder[1..]) && NoStrayOpen(sp.slots[i].after))
    && (forall key :: key in ctx ==> NoStrayOpen(ctx[key]))
  }

  /** An ordinary template and context, in the sense of `OrdinarySplit`. */
  predicate Ordinary(s: string, ctx: Context)
  {
    OrdinarySplit(Parse(s), ctx)
  }

  /** One of `a`, `b` is a prefix of the other. */
  predicate Clash(a: string, b: string)
  {
    (|a| <= |b| && a == b[..|a|]) || (|b| <= |a| && b == a[..|b|])
  }

  /** No occurrence of `m` in `x + y` starts inside `x`, whatever `y` is. */
  predicate NoEarlyMatch(x: string, m: string)
  {
    forall q :: 0 <= q < |x| ==> !Clash(x[q..], m)
  }

  lemma NoEarlyMatchConcat(x: string, y: string, m: string)
    requires NoEarlyMatch(x, m) && NoEarlyMatch(y, m)
    ensures NoEarlyMatch(x + y, m)
  {
    forall q | 0 <= q < |x + y|
      ensures !Clash((x + y)[q..], m)
    {
      if q < |x| {
        assert (x + y)[q..] == x[q..] + y;
      } else {
        assert (x + y)[q..] == y[q - |x|..];
      }
    }
  }

  /** Text without stray `{` cannot hold the start of a placeholder. */
  lemma StrayFreeNoEarly(t: string, m: string)
    requires NoStrayOpen(t) && IsPlaceholder(m)
    ensures NoEarlyMatch(t, m)
  {
    forall q | 0 <= q < |t|
      ensures !Clash(t[q..], m)
    {
      var a := t[q..];
      if t[q] != '{' {
        assert a[0] != m[0];
      } else {
        assert !OpensAt(t, q);
        assert a[1] != m[1];
      }
    }
  }

  /** Two matches one of which is a prefix of the other are equal: each holds its
      first `}}` at its end. */
  lemma PlaceholderClash(a: string, b: string)
    requires IsPlaceholder(a) && IsPlaceholder(b) && Clash(a, b)
    ensures a == b
  {
    if |a| <= |b| {
      PrefixPlaceholder(a, b);
    } else {
      PrefixPlaceholder(b, a);
    }
  }

  lemma PrefixPlaceholder(a: string, b: string)
    requires IsPlaceholder(a) && IsPlaceholder(b) && |a| <= |b| && a == b[..|a|]
    ensures a == b
  {
    var i := |a| - 2;
    assert b[i] == a[i] && b[i + 1] == a[i + 1];
    FirstClose(b, i);
    assert b[..|b|] == b;
  }

  /** The only `}}` of a placeholder after its `{{` is its closing one. */
  lemma FirstClose(m: string, i: nat)
    requires IsPlaceholder(m) && 2 <= i && ClosesAt(m, i)
    ensures i == |m| - 2
  {
  }

  /** A placeholder other than `m`, without stray `{` inside, holds no start of `m`. */
  lemma OtherPlaceholderNoEarly(p: string, m: string)
    requires IsPlaceholder(p) && IsPlaceholder(m) && p != m && NoStrayOpen(p[1..])
    ensures NoEarlyMatch(p, m)
  {
    StrayFreeNoEarly(p[1..], m);
    forall q | 0 <= q < |p|
      ensures !Clash(p[q..], m)
    {
      if q == 0 {
        assert p[q..] == p;
        assert Clash(p, m) ==> p == m by {
          if Clash(p, m) { PlaceholderClash(p, m); }
        }
      } else {
        assert p[q..] == p[1..][q - 1..];
      }
    }
  }

  /** `replace` hits the occurrence of `m` right after `x` when none starts in `x`. */
  lemma ReplaceAfter(x: string, m: string, y: string, v: string)
    requires |m| > 0 && NoEarlyMatch(x, m)
    ensures ReplaceFirst(x + m + y, m, v) == x + v + y
  {
    var t := x + m + y;
    assert t[|x|..|x| + |m|] == m;
    assert OccursAt(t, m, |x|);
    forall q: nat | q < |x|
      ensures !OccursAt(t, m, q)
    {
      var a := x[q..];
      assert t[q..] == a + m + y;
      assert !Clash(a, m);
    }
    assert t[..|x|] == x;
    assert t[|x| + |m|..] == y;
  }

  /** Filling one more slot appends its value and its literal text. */
  lemma FilledPrefix(slots: seq<Slot>, ctx: Context, j: nat)
    requires 0 < j <= |slots|
    ensures Filled(slots[..j], ctx)
            == Filled(slots[..j - 1], ctx) + Fill(slots[j - 1].placeholder, ctx) + slots[j - 1].after
  {
    assert slots[..j][..j - 1] == slots[..j - 1];
  }



  /** Appending one filled slot of an ordinary split keeps a known placeholder from
      starting early. */
  lemma SlotNoEarly(before: string, slot: Slot, ctx: Context, m: string)
    requires NoEarlyMatch(before, m) && IsPlaceholder(m) && Key(m) in ctx
    requires IsPlaceholder(slot.placeholder) && NoStrayOpen(slot.placeholder[1..])
    requires NoStrayOpen(slot.after) && forall key :: key in ctx ==> NoStrayOpen(ctx[key])
    ensures NoEarlyMatch(before + (Fill(slot.placeholder, ctx) + slot.after), m)
  {
    var filled := Fill(slot.placeholder, ctx);
    if Key(slot.placeholder) in ctx {
      StrayFreeNoEarly(filled, m);
    } else {
      OtherPlaceholderNoEarly(slot.placeholder, m);
    }
    StrayFreeNoEarly(slot.after, m);
    NoEarlyMatchConcat(filled, slot.after, m);
    NoEarlyMatchConcat(before, filled + slot.after, m);
  }

  /** Slots whose placeholders have the match shape and no stray `{`, and whose
      literal text has none either. */
  predicate OrdinarySlots(slots: seq<Slot>)
  {
    forall i :: 0 <= i < |slots| ==>
      IsPlaceholder(slots[i].placeholder)
      && NoStrayOpen(slots[i].placeholder[1..]) && NoStrayOpen(slots[i].after)
  }

  /** Values without `{{` that do not end in `{`. */
  predicate OrdinaryValues(ctx: Context)
  {
    forall key :: key in ctx ==> NoStrayOpen(ctx[key])
  }

  lemma OrdinaryParts(sp: Split, ctx: Context, j: nat)
    requires OrdinarySplit(sp, ctx) && j <= |sp.slots|
    ensures NoStrayOpen(sp.head) && OrdinarySlots(sp.slots[..j]) && OrdinaryValues(ctx)
  {
  }

  /** Filled ordinary slots hold no early start of a known placeholder. */
  lemma {:induction false} FilledNoEarly(slots: seq<Slot>, ctx: Context, m: string)
    requires OrdinarySlots(slots) && OrdinaryValues(ctx)
    requires IsPlaceholder(m) && Key(m) in ctx
    ensures NoEarlyMatch(Filled(slots, ctx), m)
  {
    if slots == [] {
      assert Filled(slots, ctx) == [];
    } else {
      var init, last := slots[..|slots| - 1], slots[|slots| - 1];
      assert OrdinarySlots(init) by {
        forall i | 0 <= i < |init|
          ensures IsPlaceholder(init[i].placeholder)
                  && NoStrayOpen(init[i].placeholder[1..]) && NoStrayOpen(init[i].after)
        {
          assert init[i] == slots[i];
        }
      }
      FilledNoEarly(init, ctx, m);
      SlotNoEarly(Filled(init, ctx), last, ctx, m);
      Assoc3(Filled(init, ctx), Fill(last.placeholder, ctx), last.after);
    }
  }

  /** In an ordinary split, no known placeholder occurs in the rendered part before
      the `j`-th match. */
  lemma RenderedPrefixNoEarly(sp: Split, ctx: Context, j: nat, m: string)
    requires OrdinarySplit(sp, ctx) && j <= |sp.slots|
    requires IsPlaceholder(m) && Key(m) in ctx
    ensures NoEarlyMatch(sp.head + Filled(sp.slots[..j], ctx), m)
  {
    OrdinaryParts(sp, ctx, j);
    StrayFreeNoEarly(sp.head, m);
    FilledNoEarly(sp.slots[..j], ctx, m);
    NoEarlyMatchConcat(sp.head, Filled(sp.slots[..j], ctx), m);
  }

  /** The loop over a prefix of the matches is one more turn than over a shorter one. */
  lemma ApplyMatchesPrefix(s: string, ms: seq<string>, ctx: Context, j: nat)
    requires 0 < j <= |ms|
    ensures ApplyMatches(s, ms[..j], ctx) == Step(ApplyMatches(s, ms[..j - 1], ctx), ms[j - 1], ctx)
  {
    assert ms[..j][..j - 1] == ms[..j - 1];
  }

  /** The regroupings of one turn of the loop. */
  lemma Regroup(h: string, f: string, w: string, a: string, r: string)
    ensures (h + f) + ((w + a) + r) == ((h + f) + w) + (a + r)
    ensures ((h + f) + w) + (a + r) == (h + ((f + w) + a)) + r
  {
  }

  /** After `j` turns of the loop over the matches `ms` of an ordinary split of `s`,
      the first `j` placeholders are filled in place and the rest untouched. */
  lemma {:induction false} AgreeUpTo(s: string, sp: Split, ms: seq<string>, ctx: Context, j: nat)
    requires OrdinarySplit(sp, ctx) && s == sp.head + Raw(sp.slots)
    requires |ms| == |sp.slots| && forall i :: 0 <= i < |ms| ==> ms[i] == sp.slots[i].placeholder
    requires j <= |ms|
    ensures ApplyMatches(s, ms[..j], ctx) == sp.head + Filled(sp.slots[..j], ctx) + Raw(sp.slots[j..])
  {
    if j == 0 {
      assert ms[..0] == [] && sp.slots[..0] == [] && sp.slots[0..] == sp.slots;
    } else {
      var i := j - 1;
      var m := ms[i];
      var after := sp.slots[i].after;
      var f := Filled(sp.slots[..i], ctx);
      var r := Raw(sp.slots[j..]);
      var w := Fill(m, ctx);
      assert sp.slots[i..][1..] == sp.slots[j..];
      assert Raw(sp.slots[i..]) == (m + after) + r;
      FilledPrefix(sp.slots, ctx, j);
      AgreeUpTo(s, sp, ms, ctx, i);
      var prev := ApplyMatches(s, ms[..i], ctx);
      assert prev == (sp.head + f) + ((m + after) + r);
      ApplyMatchesPrefix(s, ms, ctx, j);
      Regroup(sp.head, f, m, after, r);
      Regroup(sp.head, f, w, after, r);
      if Key(m) in ctx {
        RenderedPrefixNoEarly(sp, ctx, i, m);
      }
      OneTurn(sp.head + f, m, after + r, ctx);
    }
  }

  /** One turn of the loop fills a placeholder in place when no occurrence of it
      starts earlier. */
  lemma OneTurn(x: string, m: string, y: string, ctx: Context)
    requires IsPlaceholder(m) && (Key(m) in ctx ==> NoEarlyMatch(x, m))
    ensures Step(x + m + y, m, ctx) == x + Fill(m, ctx) + y
  {
    if Key(m) in ctx {
      ReplaceAfter(x, m, y, ctx[Key(m)]);
    }
  }

  /** On ordinary templates and values the renderer as written fills every placeholder
      in place: known keys by their values, unknown ones left verbatim. */
  lemma RenderAgrees(s: string, ctx: Context)
    requires Ordinary(s, ctx)
    ensures Render(s, ctx) == RenderIntended(s, ctx)
  {
    var sp := Parse(s);
    var ms := Matches(s);
    ParseSound(s);
    AgreeUpTo(s, sp, ms, ctx, |ms|);
    assert ms[..|ms|] == ms;
    assert sp.slots[..|sp.slots|] == sp.slots;
    assert Raw(sp.slots[|sp.slots|..]) == "" by {
      assert sp.slots[|sp.slots|..] == [];
    }
    assert sp.head + Filled(sp.slots, ctx) + "" == sp.head + Filled(sp.slots, ctx);
  }

}
