# CFG to CNF converter and regular-grammar automaton, in Dafny

This project models two parts of a grammar-tools repository written in TypeScript.

**The CNF converter** (`CNFConverter` in `main/src/Variant22/cnf-converter.ts`) takes a
context-free grammar: a set of nonterminals, a set of terminals, a `Map` from each
left-hand side to its list of bodies (a body is a list of symbols, `[]` the empty
production), and a start symbol. It runs five stages, each on a fresh copy of the
grammar the previous stage returned:

1. removal of empty productions, with a primed start `S'` when the start is nullable;
2. removal of unit productions;
3. removal of inaccessible symbols;
4. removal of non-productive symbols;
5. the strict-CNF rewrite: `T_t` nonterminals for terminals and `N<k>` chains for long bodies.

The grammar is a value (`Grammars.Grammar`). A JavaScript `Map` is an ordered map
(`Collections.OMap`): a key sequence in insertion order plus a Dafny `map`. `set`
overwrites a key in its place and appends a new key. Each stage is a `method` with the
source's loops, proved against a ghost predicate that states the stage's result in terms
of its input (`EpsilonEliminated`, `UnitEliminated`, `InaccessibleRemoved`,
`ProductivityPruned`, `Binarized`). The fixpoints (nullable, accessible and productive
symbols, unit pairs) are specified as least closed sets or as derivation chains. Lemmas
connect the two readings.

**The regular-grammar tool** (`main/src/task1`) is a `Grammar` class (`VN`, `VT`, start
variable and a `Map` from nonterminals to string productions) and a `FiniteAutomaton`
class. The grammar class classifies the grammar in the Chomsky hierarchy, tests
determinism and builds the automaton. The automaton decides membership by following
`delta`. Both classes set their fields once in the constructor, so they are `class`es
with `const` fields. A `delta` key `"state,symbol"` is modelled as the pair
(state, character). The symbol is one character, so the string key and the pair
determine each other.

The code differs in places from what the converter's documentation describes. The model
follows the code:

- **The empty production of `S'` does not survive.** Stage 1 adds `S' -> ε`, and
  stage 5 skips every empty body (line 268). The final grammar has no empty body at all
  (`CnfPipeline.ConvertToCNF`).
- **Terminals are never produced.** Stage 5 sets `T_t -> t` and then rewrites every
  entry of the `Map`, `T_t` included. So `T_t -> t` becomes `T_t -> T_t`
  (`Binarization.TermRuleLoops`), and `A -> a` becomes `A -> T_a`
  (`Binarization.TerminalBodyRenamed`). Every final body has one or two symbols. None
  of them is a terminal, provided no terminal is itself named like a generated name.
- **There are no checks on names or symbols.** Construction raises no error for unknown
  symbols. The generated names `S'`, `T_t` and `N<k>` are not checked for collisions.
  Stage 4 can remove the start symbol itself (`Productivity.StartCanDangle`).

## Model

| member | source | states |
|---|---|---|
| Grammars.CreateGrammarFromProductions | main/src/Variant22/cnf-converter.ts:348-382 | nonterminals are exactly the left-hand sides and terminals the other right-hand-side symbols (disjoint); each key's bodies are its right-hand sides in input order with `['ε']` stored as `[]`; keys are ordered by first appearance; the start is the given one or the first left-hand side |
| Grammars.CloneGrammar | main/src/Variant22/cnf-converter.ts:321-332 | the copy equals the original: same sets, start, key order and body lists |
| Grammars.ArraysEqual | main/src/Variant22/cnf-converter.ts:308-310 | true exactly when the two bodies are equal |
| Grammars.SomeEqual | main/src/Variant22/cnf-converter.ts:89-89 | the `some(arraysEqual)` test is true exactly when the body is already in the list |
| EpsilonElimination.NullableIsLeastClosed | main/src/Variant22/cnf-converter.ts:52-71 | the nullable set is closed under "a body that is empty, `['ε']`, or all nullable makes its left-hand side nullable" and lies inside every closed set |
| EpsilonElimination.FindNullable | main/src/Variant22/cnf-converter.ts:49-71 | the repeated passes end with exactly the least closed nullable set |
| EpsilonElimination.GenerateSubsets | main/src/Variant22/cnf-converter.ts:312-319 | the loop builds the sub-list sequence in the source's order (each item appends a copy of every list so far, extended by it) |
| EpsilonElimination.SubsetsShape | main/src/Variant22/cnf-converter.ts:312-319 | there are 2^n sub-lists and the first is the empty one |
| EpsilonElimination.NullablePositions | main/src/Variant22/cnf-converter.ts:80-82 | an index is listed exactly when its symbol is nullable |
| EpsilonElimination.VariantsAreDrops | main/src/Variant22/cnf-converter.ts:80-92 | the bodies obtained by removing the positions of each subset are exactly the bodies with some nullable occurrences erased |
| EpsilonElimination.DropsKeepsBody | main/src/Variant22/cnf-converter.ts:94-97 | a body is among its own variants |
| EpsilonElimination.DropsEmptyIff | main/src/Variant22/cnf-converter.ts:89-89 | a body can be erased completely exactly when all its symbols are nullable |
| EpsilonElimination.AppendNew | main/src/Variant22/cnf-converter.ts:89-96 | the body is in the result, which holds exactly the list's items and the body, with the list as its prefix |
| EpsilonElimination.AddSubsetVariants | main/src/Variant22/cnf-converter.ts:86-92 | the list, in order, that appends each new non-empty variant of a non-empty subset in `generateSubsets` order; it keeps its prefix, repeats nothing, and holds every such variant and nothing but variants |
| EpsilonElimination.AddVariants | main/src/Variant22/cnf-converter.ts:77-97 | the list, in order, with the subset variants and then the body itself appended when new; it keeps its prefix, stays free of repeats, and its elements grow by exactly the non-empty variants of the body |
| EpsilonElimination.ExpandBodies | main/src/Variant22/cnf-converter.ts:75-98 | the new list in the order the loop builds it; it repeats nothing and holds exactly the non-empty variants of the non-empty bodies |
| EpsilonElimination.Primed | main/src/Variant22/cnf-converter.ts:104-104 | `S'` differs from `S`, which it extends by one character |
| EpsilonElimination.EliminateEpsilonProductions | main/src/Variant22/cnf-converter.ts:47-111 | every entry keeps its place and holds its expanded bodies in the loop's order, without repeats; a nullable start gets `S' -> S \| ε` as new start; terminals are unchanged |
| EpsilonElimination.OnlyNewStartIsEmpty | main/src/Variant22/cnf-converter.ts:74-108 | after the stage, only the entry of the new start `S'` has an empty body |
| EpsilonElimination.ErasedVariantKept | main/src/Variant22/cnf-converter.ts:80-97 | a body with a nullable symbol keeps both itself and the variant without that symbol |
| UnitElimination.FindUnitPairs | main/src/Variant22/cnf-converter.ts:118-142 | each nonterminal is paired with exactly the nonterminals it reaches by a chain of unit productions, itself included |
| UnitElimination.UnitPass | main/src/Variant22/cnf-converter.ts:127-141 | a pass adds only reachable pairs; a pass that changes nothing leaves the pairs closed under unit productions |
| UnitElimination.NonUnitFilter | main/src/Variant22/cnf-converter.ts:146-146 | keeps exactly the non-unit bodies, no more of them than there were |
| UnitElimination.CollectedAreTargets | main/src/Variant22/cnf-converter.ts:145-158 | whether an entry is read before or after it was rebuilt, the bodies collected for `nt` are exactly the non-unit bodies of the nonterminals it unit-reaches |
| UnitElimination.EliminateUnitProductions | main/src/Variant22/cnf-converter.ts:116-163 | sets, start and key order unchanged; each entry lists its own non-unit bodies first, then without repeats every non-unit body of the nonterminals it unit-reaches |
| UnitElimination.NoUnitBodiesLeft | main/src/Variant22/cnf-converter.ts:146-157 | no body of the result is a unit body |
| UnitElimination.InheritsBodies | main/src/Variant22/cnf-converter.ts:148-157 | a nonterminal has every body of each nonterminal it unit-reaches |
| UnitElimination.UnitFreeUnchanged | main/src/Variant22/cnf-converter.ts:116-163 | a grammar without unit bodies comes back unchanged |
| UnitElimination.UnitEliminationIdempotent | main/src/Variant22/cnf-converter.ts:116-163 | running the stage a second time changes nothing |
| Accessibility.AccessibleIffReached | main/src/Variant22/cnf-converter.ts:170-184 | a symbol is accessible exactly when a chain of bodies leads to it from the start |
| Accessibility.FindAccessible | main/src/Variant22/cnf-converter.ts:170-184 | the visit marks exactly the accessible symbols |
| Accessibility.Visit | main/src/Variant22/cnf-converter.ts:172-182 | one call keeps the visit's invariant (all marked or pending symbols are accessible; marked nonterminals' body symbols are marked or pending) and makes progress |
| Accessibility.PushBodySymbols | main/src/Variant22/cnf-converter.ts:176-180 | the pending symbols grow by exactly the symbols of the bodies |
| Accessibility.DropNonTerminals | main/src/Variant22/cnf-converter.ts:187-192 | exactly the nonterminals outside the kept set leave the set and the `Map`; the other entries and the key order are kept |
| Accessibility.DropTerminals | main/src/Variant22/cnf-converter.ts:194-198 | the terminals become those inside the kept set |
| Accessibility.EliminateInaccessibleSymbols | main/src/Variant22/cnf-converter.ts:168-201 | inaccessible nonterminals leave the set and the `Map`, inaccessible terminals leave their set, everything else is unchanged |
| Accessibility.StartKept | main/src/Variant22/cnf-converter.ts:184-192 | the start is visited first, so it keeps its place among the nonterminals and keeps its entry unchanged |
| Accessibility.KeptBodiesUseKeptSymbols | main/src/Variant22/cnf-converter.ts:186-198 | every nonterminal or terminal in a kept body is kept |
| Productivity.ProductiveIffProduces | main/src/Variant22/cnf-converter.ts:208-229 | a symbol is productive exactly when it derives a string of terminals |
| Productivity.FindProductive | main/src/Variant22/cnf-converter.ts:208-229 | the terminals plus repeated passes give exactly the least closed productive set |
| Productivity.FilterBodies | main/src/Variant22/cnf-converter.ts:238-240 | keeps exactly the bodies made of productive symbols, no more of them than there were |
| Productivity.EliminateNonProductiveSymbols | main/src/Variant22/cnf-converter.ts:206-246 | unproductive nonterminals leave the set and the `Map`; productive ones keep only their productive bodies; terminals and start are unchanged |
| Productivity.PrunedBodiesAreProductive | main/src/Variant22/cnf-converter.ts:237-241 | every body of a kept nonterminal is made of productive symbols |
| Productivity.KeptNonTerminalHasBody | main/src/Variant22/cnf-converter.ts:219-241 | a kept nonterminal that is not also a terminal keeps at least one body |
| Productivity.StartCanDangle | main/src/Variant22/cnf-converter.ts:232-235 | for `S -> S` the stage removes the start symbol and leaves no entry, while the start stays `S` |
| Binarization.TermName | main/src/Variant22/cnf-converter.ts:258-258 | `T_t` is `T_` followed by `t` |
| Binarization.DecimalRoundTrip | main/src/Variant22/cnf-converter.ts:294-294 | the printed counter reads back as the counter |
| Binarization.FreshNameInjective | main/src/Variant22/cnf-converter.ts:294-294 | different counter values give different `N<k>` names |
| Binarization.FreshIsNotTermName | main/src/Variant22/cnf-converter.ts:258-294 | an `N<k>` name is never a `T_t` name |
| Binarization.BinarizeBody | main/src/Variant22/cnf-converter.ts:267-300 | an empty body gives nothing; `A -> a` gives `A -> T_a`; any other one-symbol body is kept; a long body mints one chain body per symbol beyond two |
| Binarization.BinarizeBodyCnf | main/src/Variant22/cnf-converter.ts:267-300 | the new body and the minted chain bodies have one or two symbols, and no terminal when generated names do not clash with terminals |
| Binarization.LongBodyRebuilt | main/src/Variant22/cnf-converter.ts:290-299 | for three or more symbols, expanding the new body's head `N<k>` through the minted chain gives back the converted body |
| Binarization.BinarizeList | main/src/Variant22/cnf-converter.ts:266-301 | the number of minted bodies is the entry's total excess over two symbols per body |
| Binarization.BinarizeListCnf | main/src/Variant22/cnf-converter.ts:266-301 | every rewritten and every minted body of an entry is strict |
| Binarization.FoldCnf | main/src/Variant22/cnf-converter.ts:265-302 | every rewritten list and every minted body of all processed entries is strict |
| Binarization.SplitLongBody | main/src/Variant22/cnf-converter.ts:290-299 | returns `[N<c+n-3>, last symbol]`, advances the counter by n-2, adds the fresh names and puts each `N<c+j>` with its chain body |
| Binarization.BinarizeOne | main/src/Variant22/cnf-converter.ts:268-299 | the body added, counter, names and `Map` are those `BinarizeBody` prescribes |
| Binarization.BinarizeBodies | main/src/Variant22/cnf-converter.ts:266-301 | the new list, counter, names and `Map` are those `BinarizeList` prescribes |
| Binarization.AddTerminalRules | main/src/Variant22/cnf-converter.ts:255-262 | every terminal gets a `T_t` nonterminal, a `termToNT` entry and the entry `T_t -> [[t]]` after the existing keys |
| Binarization.ConvertToStrictCNF | main/src/Variant22/cnf-converter.ts:251-305 | the existing keys come first in order, rewritten in that order; `T_t` entries and `N<k>` names are added with their bodies; every entry ends up strict |
| Binarization.TermRuleLoops | main/src/Variant22/cnf-converter.ts:255-273 | every terminal's entry ends as `T_t -> T_t` |
| Binarization.TerminalBodyRenamed | main/src/Variant22/cnf-converter.ts:271-273 | `A -> a` for a terminal `a` becomes `A -> T_a` |
| CnfPipeline.ConvertToCNF | main/src/Variant22/cnf-converter.ts:9-42 | the five stages in order, each result related to its input by its stage predicate; terminals only shrink; the start is `S` or `S'`; every final body has one or two symbols, none a terminal when names do not clash |
| CnfPipeline.StrictBodies | main/src/Variant22/cnf-converter.ts:251-305 | in a strict `Map` every body has one or two symbols, none a terminal when names do not clash |
| Automata.Step | main/src/task1/FiniteAutomaton.ts:20-25 | a lookup succeeds exactly when the key is present with a non-empty target, and gives that target |
| Automata.RunAppend | main/src/task1/FiniteAutomaton.ts:19-26 | running over `s + t` is running over `s`, then over `t` from where it stopped |
| Automata.StuckPrefix | main/src/task1/FiniteAutomaton.ts:22-24 | when a prefix has no run, the whole string has none |
| Automata.FiniteAutomaton.constructor | main/src/task1/FiniteAutomaton.ts:8-14 | the five fields are the arguments |
| Automata.FiniteAutomaton.StringBelongToLanguage | main/src/task1/FiniteAutomaton.ts:17-28 | true exactly when the run over the whole string exists and ends in `F`; the empty string is accepted exactly when `q0 == F` |
| RegularGrammars.Grammar.constructor | main/src/task1/Grammar.ts:9-14 | the four fields are the arguments |
| RegularGrammars.ClassifyProductions | main/src/task1/Grammar.ts:97-110 | the type-3 flag survives exactly when every production has at most two characters and starts with a terminal; the type-2 flag survives exactly when no production is empty |
| RegularGrammars.Grammar.ClassifyGrammar | main/src/task1/Grammar.ts:92-120 | type 3 exactly when every production is regular; type 2 exactly when not regular and no production is empty; type 1 exactly when not regular and some production is empty |
| RegularGrammars.Target | main/src/task1/Grammar.ts:136-140 | the target is one character; it is `X` exactly when the production has one character or its second is `X` |
| RegularGrammars.CollectTargetSets | main/src/task1/Grammar.ts:126-143 | the keys of the rule map to exactly their target sets; other keys are untouched |
| RegularGrammars.Grammar.IsDeterministic | main/src/task1/Grammar.ts:123-153 | true exactly when no (nonterminal, character) key collects two different targets |
| RegularGrammars.NondeterministicIff | main/src/task1/Grammar.ts:146-150 | a key has two targets exactly when two productions starting with that character lead to different states |
| RegularGrammars.CollectTargets | main/src/task1/Grammar.ts:49-72 | the keys of the rule map to exactly their target lists, in production order with duplicates; other keys are untouched |
| RegularGrammars.Grammar.ToFiniteAutomaton | main/src/task1/Grammar.ts:39-90 | states are `VN` plus `X`, the alphabet is `VT`, the start and final state are the start variable and `X`; `delta` has a key exactly when a production makes a transition there, mapped to the sole target or `{t1,...,tn}` |
| RegularGrammars.TargetsInTargetSet | main/src/task1/Grammar.ts:49-143 | every target the automaton collects is one the determinism test collects |
| RegularGrammars.DeterministicSameTargets | main/src/task1/Grammar.ts:49-153 | for rules the determinism test accepts, all targets collected at one key are the same state |
| RegularGrammars.DeltaHasProduction | main/src/task1/Grammar.ts:49-81 | every one- or two-character production yields a transition on its first character, to its own target when it is the only one |
| RegularGrammars.CompositeStatesAreStuck | main/src/task1/Grammar.ts:75-86 | when no left-hand side starts with `{`, a composite state `{...}` has no outgoing transition |
| RegularGrammars.RepeatedProductionGivesComposite | main/src/task1/Grammar.ts:123-153 | `S -> aS \| aS` passes the determinism test, yet the automaton gets the composite state `{S,S}` at (S, a) |

## Left out

- Console logging in `convertToCNF`, `grammarToString`, and the test driver: output only.
- `Variant2/Regular_expressions.ts`, `GraphvizUtils.ts` and the `Main` drivers are not part of this model.
- `Grammar.generateString` is left out: it picks productions with `Math.random`.
- `FiniteAutomaton.toString` is left out: text rendering only.
- Iteration over a JavaScript `Set` (nonterminals, terminals, unit pairs) is a choice by `:|`. Every contract holds for every iteration order, the insertion order among them. The model therefore does not fix the order of the `T_t` keys, or the order in which stage 2 appends inherited bodies.
- The key order of the automaton's `delta` and of the intermediate `transitions` map is not modelled; it only shows in `toString`.
- JavaScript strings are UTF-16 code units; the model uses Dafny `char`.
- Language equivalence of the stages (the same terminal strings before and after) is not proved. The stage predicates state each result in terms of its input instead.
- CnfPipeline.ConvertToCNF: requires every `Map` key to be a nonterminal. Stage 2 reads `unitPairs.get(nt)!` for every key and would throw for any other key. `createGrammarFromProductions` always meets this.
- Binarization.ConvertToStrictCNF: terminal-freeness of the final bodies is proved under `NoClash`, i.e. no terminal is itself named `T_...` or `N<k>`. The source makes no such check.
- Binarization.ConvertToStrictCNF: for an input key already named `N<k>` that a chain also mints (line 294), the contract states only that its final list is strict. It does not say which write wins. In the source the later `set` in snapshot order wins (line 296 or line 301), so either the chain through `N<k>` or the key's own rewritten list is lost. `Binarization.TerminalBodyRenamed` therefore excludes keys named `N<k>`.
- Grammars.CreateGrammarFromProductions: requires a start symbol or at least one pair. Without either, the source throws a `TypeError` at line 356 (`prods[0][0]` on an empty list), and that error is not modelled.
- UnitElimination.EliminateUnitProductions: the order of the bodies appended after a nonterminal's own non-unit bodies is left open, because the source takes it from `Set` iteration.
- Productivity.EliminateNonProductiveSymbols: the key order of the result is stated only when every nonterminal has an entry. Otherwise the source appends the entries it creates in `Set` iteration order.
