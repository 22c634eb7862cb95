/** Which sinks write every part to a file of its own: the names come from a template. */
module TemplateNames {
  import opened FileNames
  import opened RollingWriter
  import opened WriterFiles

  /** How a sink names parts: the template's fields by state key, its clock tokens by opening time. */
  datatype Naming = Naming(root: string, template: seq<Piece>, values: Key -> string -> string,
                           clock: int -> string -> string)

  function OpeningOf(n: Naming, key: Key, index: nat, openedAt: int): Opening {
    Opening(n.values(key), n.clock(openedAt), index)
  }

  function NameOf(n: Naming, key: Key, index: nat, openedAt: int, maxIndex: int): Path {
    n.root + Render(n.template, OpeningOf(n, key, index, openedAt), maxIndex)
  }

  /** A part's file is the rendered template under the sink's root. */
  lemma NameUnderRoot(n: Naming, key: Key, index: nat, openedAt: int, maxIndex: int)
    ensures var name := NameOf(n, key, index, openedAt, maxIndex);
            n.root <= name && name[|n.root|..] == Render(n.template, Opening(n.values(key), n.clock(openedAt), index),
                                                         maxIndex)
  {
  }

  ghost predicate NamedBy(cfg: Config, n: Naming) {
    forall key: Key, index: nat, openedAt: int ::
      cfg.name(key, index, openedAt) == NameOf(n, key, index, openedAt, cfg.limits.maxIndex)
  }

  /** Over the keys and opening times in use, every token but `varying` keeps its width. */
  predicate SteadyWidths(n: Naming, scope: Scope, varying: string) {
    && (forall p, s, t | p in n.template && p.Field? && Rolling(p.name) && !IsPart(p.name) && p.name != varying
                         && s in scope.times && t in scope.times ::
          |n.clock(s)(p.name)| == |n.clock(t)(p.name)|)
    && (forall p, k, l | p in n.template && p.Field? && !Rolling(p.name) && p.name != varying
                         && k in scope.keys && l in scope.keys ::
          |n.values(k)(p.name)| == |n.values(l)(p.name)|)
  }

  /** A key stands for its state-key tuple. */
  predicate KeysAreStateKeys(n: Naming, scope: Scope) {
    forall k, l | k in scope.keys && l in scope.keys ::
      StateKey(n.template, n.values(k)) == StateKey(n.template, n.values(l)) ==> k == l
  }

  ghost predicate TempInjective(cfg: Config) {
    forall a: Path, b: Path :: cfg.temp(a) == cfg.temp(b) ==> a == b
  }

  lemma NamesDiffer(n: Naming, scope: Scope, varying: string, maxIndex: nat,
                    k: Key, l: Key, i: nat, j: nat, s: int, t: int)
    requires FileNames.HasPart(n.template) && SteadyWidths(n, scope, varying) && KeysAreStateKeys(n, scope)
    requires k in scope.keys && l in scope.keys && s in scope.times && t in scope.times
    requires i <= maxIndex && j <= maxIndex
    requires NameOf(n, k, i, s, maxIndex) == NameOf(n, l, j, t, maxIndex)
    ensures k == l && i == j
  {
    var (a, b) := (OpeningOf(n, k, i, s), OpeningOf(n, l, j, t));
    var (x, y) := (Render(n.template, a, maxIndex), Render(n.template, b, maxIndex));
    assert (n.root + x)[|n.root|..] == x && (n.root + y)[|n.root|..] == y;
    NamesSeparateParts(n.template, a, b, maxIndex, varying);
  }

  /**
   A template with the part number in it and at most one token of varying width gives every part
   in scope a file of its own.
   */
  lemma PartTemplateSeparates(cfg: Config, n: Naming, scope: Scope, varying: string)
    requires NamedBy(cfg, n) && FileNames.HasPart(n.template)
    requires SteadyWidths(n, scope, varying) && KeysAreStateKeys(n, scope)
    requires cfg.staged ==> TempInjective(cfg)
    ensures Separate(cfg, scope)
  {
    forall k: Key, l: Key, i: nat, j: nat, s: int, t: int
      | k in scope.keys && l in scope.keys && s in scope.times && t in scope.times
        && i <= cfg.limits.maxIndex && j <= cfg.limits.maxIndex && Dest(cfg, k, i, s) == Dest(cfg, l, j, t)
      ensures k == l && i == j
    {
      NamesDiffer(n, scope, varying, cfg.limits.maxIndex, k, l, i, j, s, t);
    }
  }

  /** One state key alone needs no condition on its fields. */
  lemma OneKeySeparates(cfg: Config, n: Naming, key: Key, times: set<int>, varying: string)
    requires NamedBy(cfg, n) && FileNames.HasPart(n.template)
    requires forall p, s, t | p in n.template && p.Field? && Rolling(p.name) && !IsPart(p.name) && p.name != varying
                              && s in times && t in times ::
               |n.clock(s)(p.name)| == |n.clock(t)(p.name)|
    requires cfg.staged ==> TempInjective(cfg)
    ensures Separate(cfg, Scope({key}, times))
  {
    PartTemplateSeparates(cfg, n, Scope({key}, times), varying);
  }

  /** Two adjacent fields of varying width do not separate: two state keys write to one file. */
  lemma AdjacentFieldsShareAFile(cfg: Config, n: Naming, scope: Scope, a: string, b: string, rest: seq<Piece>,
                                 x: string, y: string, z: string, k: Key, l: Key, s: int)
    requires NamedBy(cfg, n) && n.template == [Field(a), Field(b)] + rest && cfg.limits.maxIndex >= 1
    requires CutDifferently(a, b, n.values(k), n.values(l), x, y, z) && Field(a) !in rest && Field(b) !in rest
    requires k in scope.keys && l in scope.keys && s in scope.times
    ensures StateKey(n.template, n.values(k)) != StateKey(n.template, n.values(l))
    ensures Dest(cfg, k, 1, s) == Dest(cfg, l, 1, s) && !Separate(cfg, scope)
  {
    AdjacentFieldsCollide(a, b, rest, n.values(k), n.values(l), x, y, z, n.clock(s), 1, cfg.limits.maxIndex);
    assert NameOf(n, k, 1, s, cfg.limits.maxIndex) == NameOf(n, l, 1, s, cfg.limits.maxIndex);
  }
}
