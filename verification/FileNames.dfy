/** File names of rolling parts: the zero-padded part number and templates rendered around it. */
module FileNames {
  import opened Text

  // ── the part number ───────────────────────────────────────────────────────

  function Zeros(k: nat): string {
    if k == 0 then "" else Zeros(k - 1) + "0"
  }

  /** The width of the highest index; a numeral is never empty, so the floor of one is met. */
  function Width(maxIndex: int): nat {
    |IntText(maxIndex)|
  }

  /** Zero-filled to the width of the highest index; a longer number is not cut. */
  function FormatPart(index: nat, maxIndex: int): string {
    var digits := NatText(index);
    (if |digits| < Width(maxIndex) then Zeros(Width(maxIndex) - |digits|) else "") + digits
  }

  lemma {:induction false} PaddedZero(w: nat)
    ensures Padded(0, w) == Zeros(w)
  {
    if w > 0 {
      PaddedZero(w - 1);
    }
  }

  lemma {:induction false} PaddedIsFilled(n: nat, w: nat)
    requires |NatText(n)| <= w
    ensures Padded(n, w) == Zeros(w - |NatText(n)|) + NatText(n)
  {
    if n < 10 {
      PaddedZero(w - 1);
      assert n / 10 == 0 && n % 10 == n;
    } else {
      PaddedIsFilled(n / 10, w - 1);
    }
  }

  lemma FormatIsPadded(index: nat, maxIndex: nat)
    requires index <= maxIndex
    ensures FormatPart(index, maxIndex) == Padded(index, Width(maxIndex)) && index < Pow10(Width(maxIndex))
  {
    NatTextLengthMonotone(index, maxIndex);
    PaddedIsFilled(index, Width(maxIndex));
    NatTextFits(maxIndex);
  }

  lemma {:induction false} DigitsAfterZeros(k: nat, digits: string)
    requires forall c | c in digits :: IsDigit(c)
    ensures forall c | c in Zeros(k) + digits :: IsDigit(c)
    ensures DigitsValue(Zeros(k) + digits) == DigitsValue(digits)
    decreases |digits|, k
  {
    ZerosAreDigits(k);
    var all := Zeros(k) + digits;
    if digits == "" {
      assert all == Zeros(k);
    } else {
      var init := digits[..|digits| - 1];
      assert forall c | c in init :: c in digits;
      DigitsAfterZeros(k, init);
      assert all[..|all| - 1] == Zeros(k) + init && all[|all| - 1] == digits[|digits| - 1];
      assert digits[|digits| - 1] in digits;
    }
  }

  lemma {:induction false} ZerosAreDigits(k: nat)
    ensures |Zeros(k)| == k && (forall c | c in Zeros(k) :: c == '0') && DigitsValue(Zeros(k)) == 0
  {
    if k > 0 {
      ZerosAreDigits(k - 1);
      DigitTable(0);
      assert Zeros(k)[..k - 1] == Zeros(k - 1);
    }
  }

  lemma FilledReadsBack(k: nat, digits: string)
    requires forall c | c in digits :: IsDigit(c)
    ensures |Zeros(k) + digits| == k + |digits| && (forall c | c in Zeros(k) + digits :: IsDigit(c))
    ensures DigitsValue(Zeros(k) + digits) == DigitsValue(digits)
  {
    ZerosAreDigits(k);
    DigitsAfterZeros(k, digits);
  }

  /** A part number reads back as the index and is as wide as the highest index, or as the index if that is wider. */
  lemma PartTextReadsBack(index: nat, maxIndex: int)
    ensures var (text, n, w) := (FormatPart(index, maxIndex), |NatText(index)|, |IntText(maxIndex)|);
            && |text| == (if n < w then w else n)
            && (forall c | c in text :: IsDigit(c)) && DigitsValue(text) == index
  {
    var digits := NatText(index);
    var fill := if |digits| < Width(maxIndex) then Width(maxIndex) - |digits| else 0;
    assert FormatPart(index, maxIndex) == Zeros(fill) + digits;
    FilledReadsBack(fill, digits);
    DigitsValueOfNatText(index);
  }

  /** All part numbers of one sink have one width, and sort as text in part order. */
  lemma PartTextOrder(i: nat, j: nat, maxIndex: nat)
    requires i <= maxIndex && j <= maxIndex
    ensures |FormatPart(i, maxIndex)| == |FormatPart(j, maxIndex)|
    ensures Less(FormatPart(i, maxIndex), FormatPart(j, maxIndex)) <==> i < j
    ensures FormatPart(i, maxIndex) == FormatPart(j, maxIndex) <==> i == j
  {
    FormatIsPadded(i, maxIndex);
    FormatIsPadded(j, maxIndex);
    PaddedOrder(i, j, Width(maxIndex));
  }

  // ── templates ─────────────────────────────────────────────────────────────

  datatype Piece = Literal(text: string) | Field(name: string)

  predicate IsPart(name: string) {
    name == "part" || name == "index"
  }

  /** Tokens that differ from part to part and are therefore no part of the state key. */
  predicate Rolling(name: string) {
    IsPart(name) || name == "timestamp" || name == "epoch" || name == "epoch_m" || name == "epoch_ms"
  }

  /** What a part is opened with: values of the stable fields, renderings of the clock, part number. */
  datatype Opening = Opening(values: string -> string, clock: string -> string, index: nat)

  function PieceText(p: Piece, o: Opening, maxIndex: int): string {
    match p
    case Literal(text) => text
    case Field(name) =>
      if IsPart(name) then FormatPart(o.index, maxIndex)
      else if Rolling(name) then o.clock(name) else o.values(name)
  }

  function Render(template: seq<Piece>, o: Opening, maxIndex: int): string {
    if template == [] then "" else PieceText(template[0], o, maxIndex) + Render(template[1..], o, maxIndex)
  }

  function StateKey(template: seq<Piece>, values: string -> string): seq<(string, string)> {
    if template == [] then [] else
      (match template[0]
       case Literal(_) => []
       case Field(name) => if Rolling(name) then [] else [(name, values(name))])
      + StateKey(template[1..], values)
  }

  /** A template renders piece by piece, in order. */
  lemma {:induction false} RenderJoins(a: seq<Piece>, b: seq<Piece>, o: Opening, maxIndex: int)
    ensures Render(a + b, o, maxIndex) == Render(a, o, maxIndex) + Render(b, o, maxIndex)
    ensures StateKey(a + b, o.values) == StateKey(a, o.values) + StateKey(b, o.values)
  {
    if a == [] {
      assert a + b == b;
    } else {
      assert (a + b)[1..] == a[1..] + b;
      RenderJoins(a[1..], b, o, maxIndex);
    }
  }

  /** Literal text as it is, part numbers padded, clock tokens from the clock, other fields from the values. */
  lemma RenderOne(o: Opening, maxIndex: int, name: string, text: string)
    ensures Render([Literal(text)], o, maxIndex) == text && StateKey([Literal(text)], o.values) == []
    ensures name in {"part", "index"} ==>
              Render([Field(name)], o, maxIndex) == FormatPart(o.index, maxIndex)
              && StateKey([Field(name)], o.values) == []
    ensures name in {"timestamp", "epoch", "epoch_m", "epoch_ms"} ==>
              Render([Field(name)], o, maxIndex) == o.clock(name) && StateKey([Field(name)], o.values) == []
    ensures name !in {"part", "index", "timestamp", "epoch", "epoch_m", "epoch_ms"} ==>
              Render([Field(name)], o, maxIndex) == o.values(name)
              && StateKey([Field(name)], o.values) == [(name, o.values(name))]
  {
    assert [Literal(text)][1..] == [] && [Field(name)][1..] == [];
    assert "part"[0] != "timestamp"[0] && "part"[0] != "epoch"[0] && "index"[0] != "timestamp"[0];
    assert "index"[0] != "epoch"[0];
  }

  predicate SameLengths(template: seq<Piece>, a: Opening, b: Opening, maxIndex: int) {
    forall p | p in template :: |PieceText(p, a, maxIndex)| == |PieceText(p, b, maxIndex)|
  }

  /** Renderings of equal piecewise lengths are equal only if they agree in every piece. */
  lemma {:induction false} RenderInjective(template: seq<Piece>, a: Opening, b: Opening, maxIndex: int)
    requires SameLengths(template, a, b, maxIndex)
    ensures Render(template, a, maxIndex) == Render(template, b, maxIndex) <==>
            forall p | p in template :: PieceText(p, a, maxIndex) == PieceText(p, b, maxIndex)
  {
    if template != [] {
      var (p, rest) := (template[0], template[1..]);
      RenderInjective(rest, a, b, maxIndex);
      var (x, y) := (PieceText(p, a, maxIndex), PieceText(p, b, maxIndex));
      var (s, t) := (Render(rest, a, maxIndex), Render(rest, b, maxIndex));
      assert (x + s)[..|x|] == x && (x + s)[|x|..] == s;
      assert (y + t)[..|y|] == y && (y + t)[|y|..] == t;
      assert template == [p] + rest;
    }
  }

  lemma {:induction false} SameKeySameValues(template: seq<Piece>, u: string -> string, v: string -> string)
    ensures StateKey(template, u) == StateKey(template, v) <==>
            forall p | p in template && p.Field? && !Rolling(p.name) :: u(p.name) == v(p.name)
    ensures |StateKey(template, u)| == |StateKey(template, v)|
  {
    if template != [] {
      var (p, rest) := (template[0], template[1..]);
      SameKeySameValues(rest, u, v);
      assert template == [p] + rest;
      if p.Field? && !Rolling(p.name) {
        var (s, t) := (StateKey(template, u), StateKey(template, v));
        assert s[0] == (p.name, u(p.name)) && s[1..] == StateKey(rest, u);
        assert t[0] == (p.name, v(p.name)) && t[1..] == StateKey(rest, v);
        assert s == [s[0]] + s[1..] && t == [t[0]] + t[1..];
      } else {
        assert StateKey(template, u) == StateKey(rest, u) && StateKey(template, v) == StateKey(rest, v);
      }
    }
  }

  predicate HasPart(template: seq<Piece>) {
    exists p | p in template :: p.Field? && IsPart(p.name)
  }

  // ── one token of varying width ────────────────────────────────────────────

  /** Every token but `varying` renders to the same number of characters in both openings. */
  predicate SteadyBut(template: seq<Piece>, a: Opening, b: Opening, varying: string) {
    forall p | p in template && p.Field? && !IsPart(p.name) && p.name != varying ::
      |PieceText(p, a, 0)| == |PieceText(p, b, 0)|
  }

  lemma SteadyPiece(template: seq<Piece>, a: Opening, b: Opening, maxIndex: nat, varying: string, p: Piece)
    requires SteadyBut(template, a, b, varying) && a.index <= maxIndex && b.index <= maxIndex
    requires p in template && p != Field(varying)
    ensures |PieceText(p, a, maxIndex)| == |PieceText(p, b, maxIndex)|
  {
    if p.Field? && IsPart(p.name) {
      PartTextOrder(a.index, b.index, maxIndex);
    } else {
      assert PieceText(p, a, maxIndex) == PieceText(p, a, 0) && PieceText(p, b, maxIndex) == PieceText(p, b, 0);
    }
  }

  function Longer(p: Piece, a: Opening, b: Opening, maxIndex: nat): int {
    |PieceText(p, a, maxIndex)| - |PieceText(p, b, maxIndex)|
  }

  lemma RenderStep(template: seq<Piece>, o: Opening, maxIndex: nat)
    requires template != []
    ensures |Render(template, o, maxIndex)|
            == |PieceText(template[0], o, maxIndex)| + |Render(template[1..], o, maxIndex)|
  {
  }

  /** The name with the longer varying token is the longer one. */
  lemma {:induction false} LongerTokenLongerName(template: seq<Piece>, a: Opening, b: Opening, maxIndex: nat,
                                                 varying: string)
    requires SteadyBut(template, a, b, varying) && a.index <= maxIndex && b.index <= maxIndex
    requires Longer(Field(varying), a, b, maxIndex) > 0
    ensures |Render(template, a, maxIndex)| >= |Render(template, b, maxIndex)|
    ensures Field(varying) in template ==> |Render(template, a, maxIndex)| > |Render(template, b, maxIndex)|
  {
    if template != [] {
      assert template == [template[0]] + template[1..];
      LongerTokenLongerName(template[1..], a, b, maxIndex, varying);
      RenderStep(template, a, maxIndex);
      RenderStep(template, b, maxIndex);
      if template[0] != Field(varying) {
        SteadyPiece(template, a, b, maxIndex, varying, template[0]);
      }
    }
  }

  lemma EqualNamesSteadyToken(template: seq<Piece>, a: Opening, b: Opening, maxIndex: nat, varying: string)
    requires SteadyBut(template, a, b, varying) && a.index <= maxIndex && b.index <= maxIndex
    requires Render(template, a, maxIndex) == Render(template, b, maxIndex) && Field(varying) in template
    ensures Longer(Field(varying), a, b, maxIndex) == 0
  {
    if Longer(Field(varying), a, b, maxIndex) > 0 {
      LongerTokenLongerName(template, a, b, maxIndex, varying);
    } else if Longer(Field(varying), b, a, maxIndex) > 0 {
      LongerTokenLongerName(template, b, a, maxIndex, varying);
    }
  }

  /** So equal names leave no token of different length. */
  lemma EqualNamesSameLengths(template: seq<Piece>, a: Opening, b: Opening, maxIndex: nat, varying: string)
    requires SteadyBut(template, a, b, varying) && a.index <= maxIndex && b.index <= maxIndex
    requires Render(template, a, maxIndex) == Render(template, b, maxIndex)
    ensures SameLengths(template, a, b, maxIndex)
  {
    forall p | p in template ensures |PieceText(p, a, maxIndex)| == |PieceText(p, b, maxIndex)| {
      if p == Field(varying) {
        EqualNamesSteadyToken(template, a, b, maxIndex, varying);
        assert Longer(p, a, b, maxIndex) == 0;
      } else {
        SteadyPiece(template, a, b, maxIndex, varying, p);
      }
    }
  }

  /**
   With the part number in the template and at most one token that varies in width, be it a field
   or a clock token, two parts get the same name only if they are the same part of the same state.
   */
  lemma NamesSeparateParts(template: seq<Piece>, a: Opening, b: Opening, maxIndex: nat, varying: string)
    requires HasPart(template) && SteadyBut(template, a, b, varying) && a.index <= maxIndex && b.index <= maxIndex
    ensures Render(template, a, maxIndex) == Render(template, b, maxIndex) ==>
            a.index == b.index && StateKey(template, a.values) == StateKey(template, b.values)
  {
    if Render(template, a, maxIndex) == Render(template, b, maxIndex) {
      EqualNamesSameLengths(template, a, b, maxIndex, varying);
      RenderInjective(template, a, b, maxIndex);
      EqualPieces(template, a, b, maxIndex);
    }
  }

  lemma EqualPieces(template: seq<Piece>, a: Opening, b: Opening, maxIndex: nat)
    requires HasPart(template) && a.index <= maxIndex && b.index <= maxIndex
    requires forall p | p in template :: PieceText(p, a, maxIndex) == PieceText(p, b, maxIndex)
    ensures a.index == b.index && StateKey(template, a.values) == StateKey(template, b.values)
  {
    var p :| p in template && p.Field? && IsPart(p.name);
    assert PieceText(p, a, maxIndex) == PieceText(p, b, maxIndex);
    PartTextOrder(a.index, b.index, maxIndex);
    forall q | q in template && q.Field? && !Rolling(q.name) ensures a.values(q.name) == b.values(q.name) {
      assert PieceText(q, a, maxIndex) == PieceText(q, b, maxIndex);
    }
    SameKeySameValues(template, a.values, b.values);
  }

  /** Within one state key the fields cannot vary: only the clock tokens are left to be steady, but one. */
  lemma PartsOfOneKeyDiffer(template: seq<Piece>, a: Opening, b: Opening, maxIndex: nat, varying: string)
    requires HasPart(template) && a.index <= maxIndex && b.index <= maxIndex && a.index != b.index
    requires StateKey(template, a.values) == StateKey(template, b.values)
    requires forall p | p in template && p.Field? && Rolling(p.name) && !IsPart(p.name) && p.name != varying ::
               |a.clock(p.name)| == |b.clock(p.name)|
    ensures Render(template, a, maxIndex) != Render(template, b, maxIndex)
  {
    SameKeySameValues(template, a.values, b.values);
    NamesSeparateParts(template, a, b, maxIndex, varying);
  }

  // ── two tokens of varying width ───────────────────────────────────────────

  /** The text x + y + z, cut after x in `u` and after x + y in `v`; all other fields agree. */
  ghost predicate CutDifferently(a: string, b: string, u: string -> string, v: string -> string,
                                 x: string, y: string, z: string) {
    && a != b && !Rolling(a) && !Rolling(b) && y != ""
    && u(a) == x && u(b) == y + z && v(a) == x + y && v(b) == z
    && forall name | name != a && name != b :: u(name) == v(name)
  }

  lemma {:induction false} SameRest(rest: seq<Piece>, a: string, b: string, o: Opening, q: Opening, maxIndex: int)
    requires Field(a) !in rest && Field(b) !in rest && o.clock == q.clock && o.index == q.index
    requires forall name | name != a && name != b :: o.values(name) == q.values(name)
    ensures Render(rest, o, maxIndex) == Render(rest, q, maxIndex)
  {
    if rest != [] {
      assert rest[0] in rest;
      SameRest(rest[1..], a, b, o, q, maxIndex);
    }
  }

  lemma RenderAdjacent(a: string, b: string, rest: seq<Piece>, o: Opening, maxIndex: int)
    requires !Rolling(a) && !Rolling(b)
    ensures Render([Field(a), Field(b)] + rest, o, maxIndex) == o.values(a) + o.values(b) + Render(rest, o, maxIndex)
  {
    var template := [Field(a), Field(b)] + rest;
    assert template[1..][0] == Field(b) && template[1..][1..] == rest;
  }

  lemma KeysDiffer(a: string, template: seq<Piece>, u: string -> string, v: string -> string)
    requires Field(a) in template && !Rolling(a) && u(a) != v(a)
    ensures StateKey(template, u) != StateKey(template, v)
  {
    SameKeySameValues(template, u, v);
  }

  lemma AdjacentNamesAgree(a: string, b: string, rest: seq<Piece>, o: Opening, q: Opening,
                           x: string, y: string, z: string, maxIndex: int)
    requires CutDifferently(a, b, o.values, q.values, x, y, z) && Field(a) !in rest && Field(b) !in rest
    requires o.clock == q.clock && o.index == q.index
    ensures Render([Field(a), Field(b)] + rest, o, maxIndex) == Render([Field(a), Field(b)] + rest, q, maxIndex)
  {
    RenderAdjacent(a, b, rest, o, maxIndex);
    RenderAdjacent(a, b, rest, q, maxIndex);
    SameRest(rest, a, b, o, q, maxIndex);
    Recut(x, y, z, Render(rest, o, maxIndex));
  }

  lemma Recut(x: string, y: string, z: string, rest: string)
    ensures x + (y + z) + rest == (x + y) + z + rest
  {
    assert x + (y + z) == (x + y) + z;
  }

  /** One token is the limit: adjacent fields (x, y + z) and (x + y, z) are two state keys and one name. */
  lemma AdjacentFieldsCollide(a: string, b: string, rest: seq<Piece>, u: string -> string, v: string -> string,
                              x: string, y: string, z: string, clock: string -> string, index: nat, maxIndex: int)
    requires CutDifferently(a, b, u, v, x, y, z) && Field(a) !in rest && Field(b) !in rest
    ensures var template := [Field(a), Field(b)] + rest;
            && StateKey(template, u) != StateKey(template, v)
            && Render(template, Opening(u, clock, index), maxIndex)
               == Render(template, Opening(v, clock, index), maxIndex)
  {
    assert u(a) != v(a) by { assert |x| != |x + y|; }
    KeysDiffer(a, [Field(a), Field(b)] + rest, u, v);
    AdjacentNamesAgree(a, b, rest, Opening(u, clock, index), Opening(v, clock, index), x, y, z, maxIndex);
  }

  function TwoFields(a: string, first: string, b: string, second: string): string -> string {
    name => if name == a then first else if name == b then second else ""
  }

  lemma StableNames()
    ensures !Rolling("field.a") && !Rolling("field.b") && "field.a" != "field.b"
  {
    assert "field.a"[0] == 'f' == "field.b"[0] && "field.a"[6] != "field.b"[6];
  }

  /** For `{field.a}{field.b}_{part}`: ("x", "yz") and ("xy", "z"). */
  lemma XyzTwice(clock: string -> string, index: nat, maxIndex: int)
    ensures var (a, b) := ("field.a", "field.b");
            var (u, v) := (TwoFields(a, "x", b, "yz"), TwoFields(a, "xy", b, "z"));
            var template := [Field(a), Field(b)] + [Literal("_"), Field("part")];
            && StateKey(template, u) != StateKey(template, v)
            && Render(template, Opening(u, clock, index), maxIndex)
               == Render(template, Opening(v, clock, index), maxIndex)
  {
    var (a, b) := ("field.a", "field.b");
    StableNames();
    assert "y" + "z" == "yz" && "x" + "y" == "xy";
    AdjacentFieldsCollide(a, b, [Literal("_"), Field("part")], TwoFields(a, "x", b, "yz"), TwoFields(a, "xy", b, "z"),
                          "x", "y", "z", clock, index, maxIndex);
  }
}
