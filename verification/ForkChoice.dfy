/** The fork choice rule: justified number first, then total difficulty, then tie breaks. */
module ForkChoices {
  import opened Options
  import opened ChainTree
  import opened TotalDifficulty

  datatype ForkError = MissingTd | UnknownAncestor

  datatype Decision = Refused(error: ForkError) | Decided(reorg: bool)

  // `plato` is the fork block from which justified numbers count, `ttd` the terminal total
  // difficulty, `preserve` the miner's own-block preference (constantly false when absent).
  datatype Config = Config(posa: bool, plato: Option<nat>, ttd: Option<nat>, preserve: Block -> bool)

  function Justified(cfg: Config, b: Block): nat
  {
    if cfg.plato.Some? && cfg.plato.value <= b.number then b.justified else 0
  }

  // The total difficulty ReorgNeeded compares for the external header.
  function ExternTd(s: Store, td: TdTable, extern: Block): Option<nat>
  {
    var known := GetTd(s, td, extern.hash, extern.number);
    if known.Some? then known
    else
      var ptd := ParentTd(s, td, extern);
      if ptd.Some? then Some(ptd.value + extern.difficulty) else None
  }

  predicate ChoiceRules(current: Block, extern: Block, coin: bool)
  {
    if extern.time == current.time then
      if extern.coinbase == current.coinbase then extern.hash < current.hash else coin
    else extern.time < current.time
  }

  // Equal total difficulty: lower height, then own block, then earlier time, then lower hash for
  // a double sign, and otherwise the coin.
  predicate TieBreak(cfg: Config, current: Block, extern: Block, coin: bool)
  {
    if extern.number < current.number then true
    else if extern.number == current.number then
      !cfg.preserve(current) && (cfg.preserve(extern) || ChoiceRules(current, extern, coin))
    else false
  }

  function ReorgNeeded(cfg: Config, s: Store, td: TdTable, current: Block, extern: Block, coin: bool): Decision
  {
    var localTd := GetTd(s, td, current.hash, current.number);
    var externTd := ExternTd(s, td, extern);
    if localTd.None? then Refused(MissingTd)
    else if externTd.None? then Refused(UnknownAncestor)
    else if cfg.ttd.Some? && cfg.ttd.value <= externTd.value then Decided(true)
    else if externTd.value > localTd.value then Decided(true)
    else if externTd.value < localTd.value then Decided(false)
    else Decided(TieBreak(cfg, current, extern, coin))
  }

  function ReorgNeededWithFastFinality(cfg: Config, s: Store, td: TdTable, current: Block, header: Block,
      coin: bool): Decision
  {
    if !cfg.posa || Justified(cfg, header) == Justified(cfg, current)
    then ReorgNeeded(cfg, s, td, current, header, coin)
    else Decided(Justified(cfg, header) > Justified(cfg, current))
  }

  // What a head is worth: (justified number, total difficulty), compared lexicographically.
  ghost predicate ScoreLeq(j: nat, t: nat, j': nat, t': nat)
  {
    j < j' || (j == j' && t <= t')
  }

  // The decision against the lexicographic order, whatever the coin says: a strictly better
  // block is always taken, a strictly worse one never.
  lemma DecisionFollowsScore(cfg: Config, s: Store, td: TdTable, current: Block, extern: Block, coin: bool)
    requires cfg.posa && cfg.ttd.None?
    requires GetTd(s, td, current.hash, current.number).Some? && ExternTd(s, td, extern).Some?
    ensures var j, t := Justified(cfg, current), td[current.hash];
            var j', t' := Justified(cfg, extern), ExternTd(s, td, extern).value;
            var d := ReorgNeededWithFastFinality(cfg, s, td, current, extern, coin);
            && d.Decided?
            && (!ScoreLeq(j', t', j, t) ==> d.reorg)
            && (!ScoreLeq(j, t, j', t') ==> !d.reorg)
  {
  }

  // No flip-flop: two blocks are each preferred over the other only where the rule is a coin flip.
  lemma OnlyTheCoinFlipFlops(cfg: Config, s: Store, td: TdTable, a: Block, b: Block)
    requires cfg.posa && cfg.ttd.None? && a.hash != b.hash
    requires GetTd(s, td, a.hash, a.number).Some? && GetTd(s, td, b.hash, b.number).Some?
    ensures (exists x, y :: ReorgNeededWithFastFinality(cfg, s, td, a, b, x) == Decided(true)
                         && ReorgNeededWithFastFinality(cfg, s, td, b, a, y) == Decided(true))
            <==>
            && Justified(cfg, a) == Justified(cfg, b) && td[a.hash] == td[b.hash]
            && a.number == b.number && a.time == b.time && a.coinbase != b.coinbase
            && !cfg.preserve(a) && !cfg.preserve(b)
  {
    if Justified(cfg, a) == Justified(cfg, b) && td[a.hash] == td[b.hash]
       && a.number == b.number && a.time == b.time && a.coinbase != b.coinbase
       && !cfg.preserve(a) && !cfg.preserve(b) {
      assert ReorgNeededWithFastFinality(cfg, s, td, a, b, true) == Decided(true)
          && ReorgNeededWithFastFinality(cfg, s, td, b, a, true) == Decided(true);
    }
  }

  // Justification decides first under PoSA, before any total difficulty is looked up. The justified
  // number counts from the fork block on and is zero before.
  lemma JustifiedFirst(cfg: Config, s: Store, td: TdTable, current: Block, extern: Block, coin: bool)
    ensures var j := if cfg.plato.Some? && cfg.plato.value <= current.number then current.justified else 0;
            var j' := if cfg.plato.Some? && cfg.plato.value <= extern.number then extern.justified else 0;
            var d := ReorgNeededWithFastFinality(cfg, s, td, current, extern, coin);
            && (cfg.posa && j' > j ==> d == Decided(true))
            && (cfg.posa && j' < j ==> d == Decided(false))
            && (!cfg.posa || j' == j ==> d == ReorgNeeded(cfg, s, td, current, extern, coin))
  {
  }

  // Otherwise it is refused exactly when a total difficulty is missing: the current head's own, or
  // both the other block's and its parent's. Beyond the terminal difficulty any block is taken.
  lemma RefusedExactly(cfg: Config, s: Store, td: TdTable, current: Block, extern: Block, coin: bool)
    ensures var local := current.hash in s && s[current.hash].number == current.number && current.hash in td;
            var known := extern.hash in s && s[extern.hash].number == extern.number && extern.hash in td;
            var child := extern.number > 0 && extern.parent in s && extern.parent in td
                         && s[extern.parent].number == extern.number - 1;
            var d := ReorgNeeded(cfg, s, td, current, extern, coin);
            && (d == Refused(MissingTd) <==> !local)
            && (d == Refused(UnknownAncestor) <==> local && !known && !child)
            && (local && (known || child) ==>
                  var t := if known then td[extern.hash] else td[extern.parent] + extern.difficulty;
                  && (cfg.ttd.Some? && cfg.ttd.value <= t ==> d == Decided(true))
                  && (t > td[current.hash] ==> d == Decided(true))
                  && (t < td[current.hash] && (cfg.ttd.None? || t < cfg.ttd.value) ==> d == Decided(false)))
  {
  }

  // At equal total difficulty: the lower height wins; at equal height one's own block, the current
  // one first; then the earlier one; then the lower hash of one producer, and otherwise the coin.
  lemma TieBreakOrder(cfg: Config, s: Store, td: TdTable, current: Block, extern: Block, coin: bool)
    requires cfg.ttd.None? && GetTd(s, td, current.hash, current.number).Some?
    requires ExternTd(s, td, extern) == GetTd(s, td, current.hash, current.number)
    ensures var d := ReorgNeeded(cfg, s, td, current, extern, coin);
            && d.Decided?
            && (extern.number < current.number ==> d.reorg)
            && (extern.number > current.number ==> !d.reorg)
            && (extern.number == current.number ==>
                  && (cfg.preserve(current) ==> !d.reorg)
                  && (!cfg.preserve(current) && cfg.preserve(extern) ==> d.reorg)
                  && (!cfg.preserve(current) && !cfg.preserve(extern) ==>
                        && (extern.time < current.time ==> d.reorg)
                        && (extern.time > current.time ==> !d.reorg)
                        && (extern.time == current.time && extern.coinbase == current.coinbase ==>
                              (d.reorg <==> extern.hash < current.hash))
                        && (extern.time == current.time && extern.coinbase != current.coinbase ==> d.reorg == coin)))
  {
  }
}
