# sqlc in Dafny

A model of `sqlc`, a small Go library for composing SQL text. The library's
`Statement` collects stanzas for these clauses:

- SELECT;
- FROM;
- joins;
- WHERE;
- GROUP BY;
- HAVING;
- ORDER BY;
- LIMIT.

Each stanza is a fragment of SQL plus the bind arguments of its `?`
placeholders. Builder methods return a new statement with one stanza added.
`SQL` renders the stanzas in grammar order, one clause per line. `Args` lists
the arguments in the same order. In PostgreSQL mode, `SQL` rewrites the
`?` markers to `$1`, `$2`, … from left to right.

The model has these modules:

- `GoStrings` (`gostrings.dfy`) specifies the library calls the code relies
  on: `strings.Join`; `strings.Replace` with a count of 1 and a one-character
  pattern; and `fmt.Sprintf("$%d")` for non-negative numbers.
- `Sqlc` (`sqlc.dfy`) holds the model itself.
  - The statement is a datatype. Every builder is a function over it.
  - `joinParts` and `appendArgs` are methods with loops (`JoinParts`,
    `AppendArgs`). `Args` and `SQL` are straight-line methods that call them
    clause by clause. Each is proved equal to a specification function:
    `JoinParts` to `strings.Join` of the fragments, `AppendArgs` to the old
    slice plus `FlatArgs`, `SQL` to `Assembled` (numbered by `Numbered` in
    PostgreSQL mode) and `Args` to `OrderedArgs`.
  - `appendArgs` writes through a pointer to a slice. That pointer is a
    one-field class.
  - `replacePositionalArguments` is a recursive function. It is proved to
    terminate and to agree with a left-to-right reference numbering,
    `Numbered`.
- `SqlcProperties` (`sqlc_properties.dfy`) states what the renderer
  promises:
  - grammar order;
  - a line exactly for each present clause;
  - frames;
  - the behaviour of the LIMIT slot;
  - the dialect flag;
  - the empty statement.
- `SqlcCalls` (`sqlc_calls.dfy`) models chains of builder calls. Calls on
  different clauses commute; only the order of calls on the same clause
  matters.
- `SqlcBinding` (`sqlc_binding.dfy`) proves that arguments and markers
  correspond: the text has one `?` per argument, and the k-th argument
  belongs to the k-th `?`. In PostgreSQL mode, `$j` stands for the j-th
  argument.
- `SqlcExamples` (`sqlc_examples.dfy`) holds the three tests of
  `sqlc_test.go`, with the PostgreSQL half of the argument test as a method
  of its own. Each method makes the test's builder calls and asks for the
  results the test checks: `BasicComposition` and `ArgumentComposition`
  call `Args` and `SQL`; `PostgreSQLArgumentComposition` and
  `Immutability` call only `SQL`. Each expected result is proved as a
  postcondition.

The FROM, GROUP BY and ORDER BY joiner is `" ,"` (a space, then a comma),
as the code writes it, and not the more usual `", "`. The model follows the
code (`Sqlc.Joiner`).

## Model

| member | source | states |
|---|---|---|
| Sqlc.Select | sqlc.go:71-74 | SELECT list gains `Component(partial, args)` at its end; every other clause and the flag unchanged |
| Sqlc.From | sqlc.go:77-80 | FROM list gains the component at its end; every other clause and the flag unchanged |
| Sqlc.Join | sqlc.go:84-87 | join list gains the component at its end (the caller writes the JOIN keyword); nothing else changes |
| Sqlc.Where | sqlc.go:90-93 | WHERE list gains `"(" + partial + ")"` with the args; nothing else changes |
| Sqlc.Having | sqlc.go:96-99 | HAVING list gains `"(" + partial + ")"` with the args; nothing else changes |
| Sqlc.Group | sqlc.go:102-105 | GROUP BY list gains the component at its end; nothing else changes |
| Sqlc.Order | sqlc.go:108-111 | ORDER BY list gains the component at its end; nothing else changes |
| Sqlc.Limit | sqlc.go:114-117 | limit slot becomes exactly the new component, whatever it held; nothing else changes |
| Sqlc.Empty | sqlc.go:56-67 | the zero `Statement{}`: flag off, every clause list empty, limit slot the zero `component{}` (empty fragment, no args) |
| Sqlc.PrefixShape | sqlc.go:140-161 | the keywords: empty exactly for the join clause (the caller writes JOIN), otherwise ending in a space; none holds `?` or a line break |
| Sqlc.JoinerShape | sqlc.go:140-158 | every list clause has a non-empty joiner; it is `" ,"` exactly for FROM, GROUP BY and ORDER BY; none holds `?` or a line break |
| Sqlc.Rank | sqlc.go:139-162 | every clause has one position in the rendering order, and `ClauseAt` maps it back |
| Sqlc.JoinParts | sqlc.go:172-178 | the loop gathers the fragments in order; result is `strings.Join` of the fragments with the joiner |
| Sqlc.ArgSlice.constructor | sqlc.go:121 | the argument buffer starts empty |
| Sqlc.AppendArgs | sqlc.go:180-186 | buffer becomes old contents followed by every component's args in order; components without args add nothing |
| Sqlc.Args | sqlc.go:120-133 | result is `OrderedArgs`: args clause by clause SELECT, FROM, joins, WHERE, GROUP BY, HAVING, ORDER BY, then the limit's |
| Sqlc.AppendStanza | sqlc.go:139-159 | a list clause adds its keyword and joined fragments as one line iff it has components |
| Sqlc.SQL | sqlc.go:136-170 | result is the present clauses' lines in grammar order joined by `"\n"`; in PostgreSQL mode, that text with markers numbered from 1 |
| Sqlc.ReplaceFirstHoles | sqlc.go:189-190 | replacing the first `?` by a `?`-free string leaves one marker fewer |
| Sqlc.ReplacePositional | sqlc.go:188-196 | terminates (measure: markers left); result has no `?`; a `?`-free text is returned unchanged |
| Sqlc.ReplacePositionalStep | sqlc.go:189-193 | with a `?` left, one step writes `$c` over the first one and continues from `c + 1` with fewer markers |
| Sqlc.ReplaceFirstNumbered | sqlc.go:189-193 | `$c` over the first `?`, then numbering from `c + 1`, is numbering from `c` |
| Sqlc.ReplacePositionalIsNumbered | sqlc.go:188-196 | the rewrite equals `Numbered`: k-th `?` becomes `$(c+k)`, every other character kept in order |
| Sqlc.NumberedHoleFree | sqlc.go:188-196 | numbered text holds no `?` |
| Sqlc.NumberedSkip | sqlc.go:192-195 | a `?`-free prefix passes through the numbering unchanged |
| Sqlc.NumberedAppend | sqlc.go:188-196 | numbering a concatenation numbers the second part from after the first part's markers |
| Sqlc.HolesCons | sqlc.go:190 | marker count of a text is its first character's plus the rest's |
| GoStrings.JoinCons | sqlc.go:164 | `strings.Join` read from the front: first part, separator, rest joined |
| GoStrings.JoinSnoc | sqlc.go:177 | `strings.Join` with one more part appends the separator and the part; one part alone is itself |
| GoStrings.Decimal | sqlc.go:189 | `%d` of a natural number: one or more digits, leading zero only for 0 |
| GoStrings.DecimalRoundTrip | sqlc.go:189 | reading the printed number back gives the number, so distinct markers get distinct numbers |
| GoStrings.IndexOf | sqlc.go:190 | position of the first occurrence: it holds the character and nothing before it does |
| GoStrings.ReplaceFirst | sqlc.go:190 | `strings.Replace(s, "?", new, 1)`: the first occurrence replaced, the rest kept; no occurrence gives `s` back |
| SqlcProperties.LineIfPresentIsLine | sqlc.go:139-162 | a clause adds exactly its line when present (list non-empty; limit fragment non-empty) and nothing otherwise |
| SqlcProperties.LinesInGrammarOrder | sqlc.go:136-164 | lines are SELECT, FROM, joins, WHERE, GROUP BY, HAVING, ORDER BY, LIMIT in that order |
| SqlcProperties.ArgsInClauseOrder | sqlc.go:120-133 | args are each clause's components' args in the same clause order, the limit's last |
| SqlcProperties.SplitLines | sqlc.go:139-162 | lines split at any clause position into earlier and later clauses' lines |
| SqlcProperties.SplitArgs | sqlc.go:123-130 | args split at any clause position likewise |
| SqlcProperties.SameItemsSameLine | sqlc.go:139-162 | a clause's line depends on its own components only |
| SqlcProperties.UpToFrame | sqlc.go:136-164 | clauses with equal components before a position render equal lines and args there |
| SqlcProperties.FromFrame | sqlc.go:136-164 | the same for the clauses from a position on |
| SqlcProperties.RendersInPlace | sqlc.go:71-117 | a change confined to one clause changes only that clause's line and args, in place |
| SqlcProperties.StanzaAppend | sqlc.go:172-178 | adding a fragment extends the clause's line by the joiner and the fragment (the first opens the line) |
| SqlcProperties.WhereAddsCondition | sqlc.go:90-93 | first WHERE condition gives `WHERE (p)`; each further one appends ` AND (p)` |
| SqlcProperties.LimitArgsAlwaysLast | sqlc.go:130 | limit args close the list even with an empty limit fragment, when no LIMIT line appears |
| SqlcProperties.LimitLastWins | sqlc.go:114-117 | two Limit calls render and bind exactly as the second alone |
| SqlcProperties.FlagOnlyRewrites | sqlc.go:166-168 | the PostgreSQL flag changes neither the assembled lines nor the args |
| SqlcProperties.NoLinesIffNothingPresent | sqlc.go:137-164 | no line is rendered iff no clause is present |
| SqlcProperties.EmptyStatement | sqlc.go:121 | `Statement{}` renders `""` and has no args |
| SqlcCalls.Apply | sqlc.go:71-117 | a call adds its stored component to its clause (limit: replaces it) and changes nothing else |
| SqlcCalls.ChainItems | sqlc.go:71-111 | after a chain of calls, a list clause holds its old components then the calls' ones in call order |
| SqlcCalls.ChainLimit | sqlc.go:114-117 | after a chain of calls, the limit is the last one set, or the old one if none was |
| SqlcCalls.CallOrderIrrelevant | sqlc.go:71-117 | chains with the same calls per clause, interleaved differently, build the same statement |
| SqlcCalls.DistinctClausesCommute | sqlc.go:71-117 | two calls on different clauses commute |
| SqlcBinding.BindNothing | sqlc.go:120-133 | binding no arguments leaves the text unchanged |
| SqlcBinding.BindAppend | sqlc.go:120-133 | binding distributes over concatenation when the first part has one marker per argument given to it |
| SqlcBinding.BindSkip | sqlc.go:139-161 | keywords without markers pass through binding unchanged |
| SqlcBinding.HolesJoined | sqlc.go:172-178 | joined fragments of well-formed components hold one marker per argument |
| SqlcBinding.BindJoined | sqlc.go:172-186 | binding a clause's args to its joined fragments binds each fragment to its own args |
| SqlcBinding.BindStanza | sqlc.go:139-159 | a list clause's line has one marker per clause argument; binding gives the bound components' line |
| SqlcBinding.BindLimit | sqlc.go:160-162 | the same for the limit, and with no LIMIT line there are no limit args |
| SqlcBinding.BindUpToNone | sqlc.go:120-137 | before the first clause there are no lines and no args, so nothing to bind |
| SqlcBinding.BindUpToStep | sqlc.go:120-164 | if the lines of the first n-1 clauses bind to their args, adding clause n (which binds to its own args) keeps that so |
| SqlcBinding.ArgsMatchMarkers | sqlc.go:119-133 | `Args` lists the arguments "in the order they will appear in the SQL": one per `?`, the k-th for the k-th |
| SqlcBinding.NumberedIsBind | sqlc.go:188-196 | numbering the markers from c binds c, c+1, … to them in order |
| SqlcBinding.PostgreSQLNumbersArgs | sqlc.go:166-168 | in PostgreSQL mode, `$j` is the j-th argument of `Args` |
| SqlcExamples.ScrambledIsFilled | sqlc_test.go:11-17 | the test's out-of-order calls build the statement with each clause filled directly |
| SqlcExamples.FilledLines | sqlc_test.go:19-29 | that statement renders one line per clause, in grammar order, conditions in parentheses |
| SqlcExamples.FilledArgs | sqlc_test.go:19 | a statement built without arguments has none |
| SqlcExamples.BasicComposition | sqlc_test.go:10-30 | `Args` is empty and `SQL` is the eight expected lines joined by line breaks |
| SqlcExamples.WhereTwice | sqlc_test.go:34 | two Where calls store both parenthesised conditions in call order |
| SqlcExamples.TwoWheresLines | sqlc_test.go:36 | the two conditions share one WHERE line, joined by AND |
| SqlcExamples.TwoWheresArgs | sqlc_test.go:35 | the args follow in call order |
| SqlcExamples.NumberedThree | sqlc_test.go:38-40 | three markers between `?`-free texts become `$1`, `$2`, `$3` |
| SqlcExamples.ArgumentComposition | sqlc_test.go:32-36 | `Args` is `["Marge", "Alice", "Comptroller"]`; `SQL` is `WHERE (name = ? OR name = ?) AND (role = ?)` |
| SqlcExamples.PostgreSQLArgumentComposition | sqlc_test.go:38-40 | with the flag set, `SQL` is `WHERE (name = $1 OR name = $2) AND (role = $3)` |
| SqlcExamples.SelectOnly | sqlc_test.go:44-46 | one SELECT fragment renders `SELECT` and the fragment |
| SqlcExamples.SelectTwice | sqlc_test.go:48-49 | a second SELECT fragment joins the first with `", "` |
| SqlcExamples.Immutability | sqlc_test.go:43-52 | `SELECT apples`, then `SELECT apples, oranges`, and the original renders as before |

## Left out

- Go's slice aliasing is left out (`append` at sqlc.go:72 and the other builders). Two statements built from the same parent can share a backing array. Clause lists here are immutable sequences, which gives the value semantics the tests rely on.
- The `interface{}` argument values are an opaque type parameter `A`. The code only orders and concatenates them.
- `GoStrings.ReplaceFirst` models `strings.Replace(…, 1)` only for a one-character pattern, which is the only use (sqlc.go:190).
- `GoStrings.Decimal` models `fmt.Sprintf("$%d", c)` only for non-negative `c`. The rewrite starts at 1 and counts up, so no other value occurs.
- The PostgreSQL and MySQL grammar comment (sqlc.go:14-54) is documentation. It is not modelled. Nothing parses or quotes SQL, so a `?` inside a quoted literal is numbered like any other.
- The test helper `expect` (sqlc_test.go:55-60) is left out. It uses reflection and `runtime.Caller`. The tests' checks are the examples' postconditions.
- The tests' `strings.TrimSpace` of the expected text is left out. The expected texts are written without surrounding space.
- Go strings are byte strings; the model's `string` is a sequence of Unicode characters. The only search is for the ASCII `?`, and UTF-8 never places a `?` byte inside a multi-byte character, so for valid UTF-8 text the behaviour is the same. A fragment holding invalid UTF-8 cannot be written down in the model.
- SqlcBinding.ArgsMatchMarkers: the binding statement assumes each component's fragment holds one `?` per argument (`WellFormed`). That is the library's contract with its callers, and the code does not check it. The statement also needs a `show` that never writes an argument as the empty string: otherwise a bound limit fragment could become empty and lose its LIMIT line.
