/**
 * `convertToCNF`: the five stages of the converter run one after the other,
 * each on a copy of the grammar the previous one returned.
 */
module CnfPipeline {
  import opened Grammars
  import opened EpsilonElimination
  import opened UnitElimination
  import opened Accessibility
  import opened Productivity
  import opened Binarization

  /**
   * Lines 9-42: `convertToCNF`. The intermediate grammars the converter logs
   * after each stage are returned beside the final one.
   */
  method ConvertToCNF(g: Grammar)
    returns (afterEpsilon: Grammar, afterUnit: Grammar, afterInaccessible: Grammar,
             afterNonProductive: Grammar, r: Grammar)
    requires g.productions.Valid() && g.productions.m.Keys <= g.nonTerminals
    ensures EpsilonEliminated(g, afterEpsilon)
    ensures UnitEliminated(afterEpsilon, afterUnit)
    ensures InaccessibleRemoved(afterUnit, afterInaccessible)
    ensures ProductivityPruned(afterInaccessible, afterNonProductive)
    ensures afterNonProductive.productions.Valid() && Binarized(afterNonProductive, r)
    ensures r.terminals <= g.terminals
    ensures r.startSymbol == g.startSymbol || r.startSymbol == Primed(g.startSymbol)
    ensures forall k, b :: k in r.productions.m && b in r.productions.m[k] ==> 1 <= |b| <= 2
    ensures NoClash(r.terminals) ==>
              forall k, b, x :: k in r.productions.m && b in r.productions.m[k] && x in b ==> x !in r.terminals
  {
    var cnfGrammar := CloneGrammar(g);
    afterEpsilon := EliminateEpsilonProductions(cnfGrammar);
    afterUnit := EliminateUnitProductions(afterEpsilon);
    afterInaccessible := EliminateInaccessibleSymbols(afterUnit);
    afterNonProductive := EliminateNonProductiveSymbols(afterInaccessible);
    r := ConvertToStrictCNF(afterNonProductive);
    StrictBodies(r.productions.m, r.terminals);
  }

  /** In a Map whose every entry is strict, each body has one or two symbols, none a terminal when names do not clash. */
  lemma StrictBodies(m: map<Symbol, seq<Body>>, terminals: set<Symbol>)
    requires AllStrict(m, terminals)
    ensures forall k, b :: k in m && b in m[k] ==> 1 <= |b| <= 2
    ensures NoClash(terminals) ==> forall k, b, x :: k in m && b in m[k] && x in b ==> x !in terminals
  {
    forall k, b | k in m && b in m[k] ensures 1 <= |b| <= 2 {
      var i :| 0 <= i < |m[k]| && m[k][i] == b;
    }
    if NoClash(terminals) {
      forall k, b, x | k in m && b in m[k] && x in b ensures x !in terminals {
        var i :| 0 <= i < |m[k]| && m[k][i] == b;
        var j :| 0 <= j < |b| && b[j] == x;
      }
    }
  }
}
