# dcorm query builder and compiler, modelled in Dafny

dcorm is a small Python ORM. Its core is:

- an expression builder: Python operators on columns and expressions build
  `Expression(lhs, operator, rhs)` trees;
- a compiler: the `Engine` walks those trees, together with the paths,
  columns, column lists, aliases, joins and model classes. It appends query
  text to one list of fragments and bound parameters to a second list.

This project models that core and proves what each operation does.

Data and state:

- Values are datatypes. Classes whose fields the source updates in place
  are Dafny classes:
  - the engine's buffers;
  - an alias's model and name;
  - the alias manager's registry;
  - a model class's attributes;
  - the class `expression_generator` decorates;
  - a query's WHERE clause and a SELECT query's ordering, limit and offset.
- Python's duck-typed `__sql__` dispatch becomes one `Node` datatype and a
  `match`.
- Each object's compiled output is specified by the function
  `Compiler.Emit`. It gives the fragments appended, the values appended,
  and the exception that stopped compilation. Python rolls nothing back, so
  output appended before an exception stays.
- The engine's methods (module `Engines`) are proved to append exactly what `Emit` says.

The main invariant is lockstep (`Placeholders.EmitLockstep`). Every object
compiles to fragments that hold exactly one `%s` per bound value, including
when compiling stops part way.

The source is part way through a refactor. The model follows the code as
written, and lemmas name each quirk:

- `<` builds `=`.
- `!=` with an operand other than None builds `>=`.
- `~` refers to an `Operator.NOT` that does not exist.
- Operator members are plain strings, which `Engine.literal` rejects, so an
  expression's compilation stops after its left-hand side.
- Compiling an ordered column calls a string.
- `offset` reads an attribute that was never assigned.
- `limit` returns None.

Three of these are evidently unintended. They are listed under Findings,
each with a corrected definition that the rest of the model can use.

Modules:

| module | models |
|---|---|
| `Outcomes`, `Values` | Option/Result; SQL values (float as an opaque bit pattern); the exceptions raised |
| `Text` | `str(int)`, `''.join`, `sep.join`, `%s` counting, `str.lower` on ASCII |
| `Literals` | dcorm/literal.py |
| `Operators` | dcorm/operators.py, dcorm/ordering.py, dcorm/operations.py |
| `Schema` | model classes, columns, aliases (dcorm/model.py, dcorm/column.py, dcorm/alias.py) |
| `Nodes` | the objects the engine compiles; `JoinType` (dcorm/joins.py) |
| `Paths` | dcorm/path.py |
| `Compiler` | `Emit`, the compiled output of every object: dcorm/engine.py and the `__sql__` hooks |
| `Engines` | the `Engine` class of dcorm/engine.py, proved against `Emit` |
| `Placeholders` | the lockstep of placeholders and values |
| `Joins` | `Join.join` chains and their compiled form |
| `Models` | `__init_subclass__`, `__table_path__`, `__sql__`, `alias` of dcorm/model.py |
| `Aliases` | `AliasManager` (dcorm/alias.py) |
| `ExpressionBase` | dcorm/expression_base.py |
| `ExpressionFunctions` | dcorm/expression_functions.py |
| `LegacySql` | the printing serializer `sql()` of dcorm/sql.py |
| `Identifiers` | `TableIdentifier` / `FieldIdentifier` (dcorm/nodes.py, dcorm/sql.py) |
| `Fields` | dcorm/field.py |
| `Inspection` | dcorm/inspection.py |
| `Queries` | dcorm/queries/query.py, dcorm/queries/select.py |

## Model

| member | source | states |
|---|---|---|
| Text.NatToString | dcorm/sql.py:39-40 | `str(n)` for n >= 0 is a non-empty string of decimal digits; it has no leading zero unless n is 0, and it is one digit exactly when n < 10 |
| Text.IntToString | dcorm/sql.py:39-40 | `str(i)` is non-empty and starts with `-` exactly when i is negative |
| Text.ParseIntOfIntToString | dcorm/sql.py:39-40 | the decimal rendering of any int reads back as that int (round trip) |
| Text.NatToStringInjective | dcorm/sql.py:39-40 | distinct non-negative ints render as distinct strings |
| Text.ConcatAppend | dcorm/engine.py:76-78 | `''.join` of two fragment lists appended is the two joins concatenated |
| Text.EmptyConcat | dcorm/engine.py:76-78 | the joined text is empty exactly when every fragment is empty |
| Text.PlaceholderTotalAppend | dcorm/engine.py:76-78 | the `%s` count of appended fragment lists is the sum of their counts |
| Text.SealedAppend | dcorm/engine.py:76-78 | two fragment lists appended end no fragment in `%` exactly when neither does |
| Text.PlaceholderCountAppend | dcorm/engine.py:76-78 | text that does not end in `%` followed by any text holds the `%s` of both, no more |
| Text.ConcatSealed | dcorm/engine.py:76-78 | fragments none of which ends in `%` join to text that does not end in `%` |
| Text.ConcatPlaceholders | dcorm/engine.py:76-78 | such fragments join to text with as many `%s` as the fragments hold together |
| Text.SplitPlaceholder | dcorm/engine.py:76-78 | `%` and `s` in two fragments count no placeholder apart but one joined: counting by fragment needs fragments not ending in `%` |
| Text.NoPercentNoPlaceholder | dcorm/engine.py:70-72 | a fragment without `%` holds no placeholder |
| Text.Lower | dcorm/model.py:54 | `str.lower()` keeps the length and lower-cases each ASCII capital, position by position |
| Text.LowerIdempotent | dcorm/model.py:54 | lower-casing twice is lower-casing once, and no capital letter is left |
| Literals.Render | dcorm/literal.py:16-26 | the keyword, preceded by a space exactly when `space_left` and followed by one exactly when `space_right`; the length is the keyword's plus the number of flags set |
| Literals.Binary | dcorm/literal.py:29-32 | `binary(k)` keeps the keyword and sets both flags |
| Literals.Unary | dcorm/literal.py:35-38 | `unary(k)` keeps the keyword and sets only the right flag |
| Literals.BinaryRendersSpaced | dcorm/literal.py:16-32 | a binary literal renders as `' ' + k + ' '` |
| Literals.UnaryRendersTrailingSpace | dcorm/literal.py:23-38 | a unary literal renders as `k + ' '` |
| Literals.RenderAddsNoPercent | dcorm/literal.py:16-26 | rendering adds only spaces, so it adds no `%` |
| Operators.TokenInjective | dcorm/operators.py:12-38 | the 27 declared values are pairwise distinct, so no member is an alias of another |
| Operators.Token | dcorm/operators.py:12-38 | each member's value: never empty, and `NOT` only for the added `Not`, so no declared member has the value `NOT` |
| Operators.MemberNamesDistinct | dcorm/operators.py:12-38 | the 27 declared member names are pairwise distinct |
| Operators.MemberNamedOfName | dcorm/operators.py:12-38 | every declared member is found by its name |
| Operators.NotIsNoMemberName | dcorm/operators.py:9-38 | no member is named `NOT` |
| Operators.Member | dcorm/operators.py:9-38 | `Operator.<name>` is the member of that name, or AttributeError when the enum declares none |
| Operators.SourceMembersExceptNot | dcorm/operators.py:9-38 | the declared members are exactly the operators other than `NOT` |
| Schema.Alias.constructor | dcorm/alias.py:17-22 | an alias holds the given model and name (None by default) |
| Schema.Alias.GetAttr | dcorm/alias.py:24-32 | a column read through an alias is a new column on the alias with the same field and value; a nested alias found on the model gets this alias's model; anything else passes through |
| Schema.TablePath | dcorm/model.py:19-32 | the table path is `[table]`, or `[database, table]` when a database is set |
| Schema.TablePathOf | dcorm/alias.py:24-32 | an alias has no table path of its own: `__getattr__` gives the aliased model's path |
| Schema.ColumnName | dcorm/column.py:38-41 | a column's name is its `column_name` metadata entry if present, else the field name |
| Schema.ColumnPath | dcorm/column.py:43-48 | a column's path is its table's path with the column name appended as one more segment |
| Schema.Asc | dcorm/column.py:30-32 | `asc()` holds the same column with `ASC` |
| Schema.Desc | dcorm/column.py:34-36 | `desc()` holds the same column with `DESC` |
| Nodes.JoinLiteral | dcorm/joins.py:20-31 | every join type's value is the binary literal of its keyword |
| Paths.Repeat | dcorm/path.py:15-18 | `['%s'] * n` has n elements, each the given string |
| Paths.Template | dcorm/path.py:15-18 | `'.'.join(['%s'] * n)`; its length, placeholders and last character are stated by the `Template*` lemmas below |
| Paths.TemplateOne | dcorm/path.py:15-18 | a template of one segment is `%s` |
| Paths.TemplateUnfold | dcorm/path.py:15-18 | a template of n+1 segments is `%s.` followed by the template of n |
| Paths.TemplateLength | dcorm/path.py:15-18 | a template of n >= 1 segments starts with `%s` and has 3n-1 characters |
| Paths.TemplatePlaceholders | dcorm/path.py:15-23 | the template of n segments holds exactly n placeholders, one per value `__sql__` binds |
| Paths.TemplateSealed | dcorm/path.py:15-18 | a path template never ends in `%` |
| Compiler.ValueEmission | dcorm/engine.py:46-56 | `value` accepts exactly bools, ints, floats and strings. It writes `%s`, or `'%s'` for a string, and binds the value itself. Anything else is a TypeError that writes nothing |
| Compiler.ColumnListEmission | dcorm/column.py:60-67 | compiling a column list never raises |
| Compiler.ColumnListStep | dcorm/column.py:61-65 | each column adds its own output, then a comma literal unless it is the last |
| Compiler.Emit | dcorm/engine.py:58-63 | what `sql(obj)` appends for each kind of object: its hook's output, or `value(obj)` for an object without `__sql__`; the engine methods are proved to append exactly this, and `Placeholders.EmitLockstep` proves it in step |
| Engines.Engine.constructor | dcorm/engine.py:25-34 | a new engine has empty buffers and the given quotes template (`"{}"` by default) |
| Engines.Engine.Quote | dcorm/engine.py:36-38 | the string is placed between the template's opening and closing parts |
| Engines.Engine.Query | dcorm/engine.py:76-78 | the values in append order, and the text, which is empty exactly when every fragment is; from an engine whose buffers are in lockstep, the joined text holds exactly one `%s` per value |
| Engines.Engine.RawValue | dcorm/engine.py:40-44 | appends the one template fragment and every given value, in order; keeps the lockstep when the template holds one `%s` per value and does not end in `%` |
| Engines.Engine.Value | dcorm/engine.py:46-56 | appends exactly what `ValueEmission` says; a TypeError leaves both buffers unchanged; keeps the lockstep |
| Engines.Engine.Literal | dcorm/engine.py:65-74 | an enum member is replaced by its value; a Literal appends its rendering and no value; anything else is a TypeError |
| Engines.Engine.Sql | dcorm/engine.py:58-63 | an object with a compile hook runs it and any other object is bound by `value`; the buffers grow by exactly `Emit`'s output, and the lockstep is kept |
| Engines.Engine.CompileToken | dcorm/operators.py:40-43 | an enum member's `__sql__` is a string, and calling it raises TypeError |
| Engines.Engine.CompilePath | dcorm/path.py:20-23 | appends one fragment, the template, and the segments as values, in order |
| Engines.Engine.CompileModel | dcorm/model.py:34-35 | a model class compiles as its table path |
| Engines.Engine.CompileExpression | dcorm/expression.py:23-29 | the lhs, then the operator through `literal`. That call raises TypeError, so the rhs is never reached |
| Engines.Engine.CompileColumn | dcorm/column.py:43-51 | a column compiles as its path: one fragment, one value per segment |
| Engines.Engine.CompileColumnSelect | dcorm/column.py:60-67 | n columns compile in order with n-1 commas and none after the last |
| Engines.Engine.CompileOrderedColumn | dcorm/column.py:76-77 | the column's output, then TypeError from the ordering's string-valued `__sql__` |
| Engines.Engine.CompileAlias | dcorm/alias.py:39-43 | an unnamed alias raises RuntimeError before writing anything; a named one writes its model, ` AS `, then its name as a bound string |
| Engines.Engine.CompileJoin | dcorm/joins.py:49-55 | the lhs, the join keyword, the rhs, then ` ON ` and the condition only when there is one; output stops at the first exception |
| Engines.Engine.CompileJoinRight | dcorm/joins.py:50 | the join keyword's rendering, then the rhs |
| Engines.Engine.CompileCondition | dcorm/joins.py:52-53 | ` ON `, then the condition |
| Placeholders.ThenLockstep | dcorm/engine.py:76-78 | outputs in step, written one after the other, are in step |
| Placeholders.LiteralLockstep | dcorm/engine.py:70-72 | a literal writes no placeholder and binds nothing |
| Placeholders.ValueLockstep | dcorm/engine.py:46-56 | `value` writes one placeholder for the one value it binds |
| Placeholders.PathLockstep | dcorm/path.py:15-23 | a path writes one placeholder per segment it binds |
| Placeholders.JoinKeywordLockstep | dcorm/joins.py:20-31 | a join keyword writes no placeholder |
| Placeholders.JoinKeywordNoPercent | dcorm/joins.py:20-31 | no join keyword holds `%` |
| Placeholders.ColumnLockstep | dcorm/column.py:50-51 | a column writes one placeholder per path segment |
| Placeholders.CommaLockstep | dcorm/column.py:18 | the comma literal writes no placeholder |
| Placeholders.ColumnListLockstep | dcorm/column.py:60-67 | a column list writes one placeholder per value it binds |
| Placeholders.AliasLockstep | dcorm/alias.py:39-43 | an alias writes one placeholder per value it binds |
| Placeholders.ExpressionLockstep | dcorm/expression.py:23-29 | an expression writes its left side, then stops with TypeError at the operator literal, so it is in step when its left side is |
| Placeholders.OrderedColumnLockstep | dcorm/column.py:76-77 | an ordered column writes its column path, then stops at the ordering, and is in step |
| Placeholders.JoinRightLockstep | dcorm/joins.py:49-55 | the join keyword followed by a right side in step is in step |
| Placeholders.ConditionLockstep | dcorm/joins.py:49-55 | `ON` followed by a condition in step is in step |
| Placeholders.JoinLockstep | dcorm/joins.py:49-55 | a join whose sides and condition are in step is in step |
| Placeholders.EmitLockstep | dcorm/engine.py:46-63 | every object compiles to exactly one `%s` per bound value, also when it stops with an exception |
| Placeholders.SqlKeepsLockstep | dcorm/engine.py:58-78 | an engine whose fragments and values agree, and whose fragments do not end in `%`, still agrees after `sql(obj)`, and the text `query()` joins holds one `%s` per value |
| Joins.JoinKeywordsSpaced | dcorm/joins.py:20-31 | every join keyword renders with a space on each side |
| Joins.JoinOnto | dcorm/joins.py:42-47 | `join` returns a new join with the receiver on the left, defaulting to INNER and no condition; the receiver is a value and does not change |
| Joins.Chain | dcorm/joins.py:42-47 | a chain of one or more joins is a join; an empty chain is the first table |
| Joins.ChainEmission | dcorm/joins.py:47-55 | `a.join(b).join(c)...` compiles left-deep: `a k1 b [ON p1] k2 c [ON p2] ...` |
| Joins.ChainStep | dcorm/joins.py:47-55 | the last join's output follows the output of the chain before it |
| Joins.WithoutCondition | dcorm/joins.py:49-55 | a join without a condition writes no `ON`: lhs, keyword, rhs |
| Joins.WithCondition | dcorm/joins.py:49-55 | with a condition, ` ON ` and the condition follow the rhs |
| Models.Declare | dcorm/model.py:43-54 | the table name is `table_name` if non-empty, else the lower-cased class name; without a database argument the inherited database is kept |
| Models.DefaultTableName | dcorm/model.py:54 | a defaulted table name has the class name's length, no capitals, and is its own default |
| Models.ModelCompiles | dcorm/model.py:27-35 | a model class writes `%s`, or `%s.%s` with a database, and binds its table path |
| Models.ModelColumnPath | dcorm/model.py:27-32 | a column on a model has 2 segments, or 3 with a database, and its table's path is a prefix of it |
| Models.ColumnsPrefixLookup | dcorm/model.py:57-58 | every field met so far has its own column under its name |
| Models.ColumnsPrefixKey | dcorm/model.py:57-58 | only declared fields' names are set by the loop |
| Models.ModelNamespace.constructor | dcorm/model.py:43-58 | the class starts with the given attributes |
| Models.ModelNamespace.InstallColumns | dcorm/model.py:57-58 | the loop sets one `Column(cls, field)` per declared field, in declaration order, over the existing attributes |
| Models.InstalledColumns | dcorm/model.py:57-58 | after the loop each field's name holds its column, bound to the class with no value |
| Models.OtherAttributesKept | dcorm/model.py:57-58 | the loop leaves every other attribute as it was |
| Models.AliasOf | dcorm/model.py:75-78 | `alias(name)` is a new alias of the class, named or not |
| Aliases.AutoName | dcorm/alias.py:63 | `t<N>`: the letter t followed by N's decimal digits |
| Aliases.AutoNameInjective | dcorm/alias.py:63 | distinct counters give distinct names |
| Aliases.LeastFreeFrom | dcorm/alias.py:61-64 | the probe started at k stops at a counter >= k whose name is free |
| Aliases.LeastFreeFromLeast | dcorm/alias.py:61-64 | every counter the probe passes from k has its name registered |
| Aliases.LeastFree | dcorm/alias.py:61-64 | the probe from 1 stops at an N >= 1 whose `t<N>` is not registered |
| Aliases.LeastFreeLeast | dcorm/alias.py:61-64 | the stop is the least such N: a free `tj` is at or after it, and every `tj` before it is registered |
| Aliases.LeastFreeAfter | dcorm/alias.py:61-64 | with `t1` .. `tn` registered the probe stops at n+1 |
| Aliases.NamedInOrderKeys | dcorm/alias.py:83-86 | after k auto-named registrations the names are exactly `t1` .. `tk` |
| Aliases.NamedInOrderLookup | dcorm/alias.py:83-86 | `tj` is registered for the j-th alias |
| Aliases.NamedInOrderNext | dcorm/alias.py:76-86 | after `t1` .. `tk` the probe stops at k+1, `t(k+1)` is free, and registering it extends the registry by one entry |
| Aliases.CurrentNamesConsistent | dcorm/alias.py:17-22 | one alias object has one name, wherever it occurs in a list |
| Aliases.Step | dcorm/alias.py:59-81 | registering an unnamed alias never fails, and every occurrence of the alias gets the same name |
| Aliases.Register | dcorm/alias.py:76-86 | one `Step` per alias from the k-th on, stopping at the first error; one name per list position |
| Aliases.RegisterKeeps | dcorm/alias.py:76-86 | registering never replaces an entry, and a name once set is kept |
| Aliases.StepRegistered | dcorm/alias.py:76-86 | an alias registered by one step is still registered under its name after the later steps |
| Aliases.RegisterAll | dcorm/alias.py:83-86 | when no error is raised, every alias is registered under its name |
| Aliases.StepStops | dcorm/alias.py:76-81 | a duplicate name stops registering at that alias, with `Duplicate alias: <name>` |
| Aliases.StepThenStops | dcorm/alias.py:83-86 | a successful step adds its alias to the registered ones before the stop |
| Aliases.RegisterStops | dcorm/alias.py:83-86 | an error names the first alias whose name is already registered, and every alias before it is registered |
| Aliases.StepClean | dcorm/alias.py:59-86 | with `t1` .. `tk` registered, the next distinct unnamed alias is registered as `t(k+1)` |
| Aliases.RegisterClean | dcorm/alias.py:59-86 | from `t1` .. `tk`, the remaining distinct unnamed aliases are registered as `t(k+1)` .. `tn`, without error |
| Aliases.RegisterFromEmpty | dcorm/alias.py:59-86 | distinct unnamed aliases registered with an empty registry get `t1` .. `tn` in order, without error |
| Aliases.AliasManager.constructor | dcorm/alias.py:49-51 | a new manager has an empty registry |
| Aliases.AliasManager.Enter | dcorm/alias.py:53-54 | entering returns the manager itself |
| Aliases.AliasManager.Exit | dcorm/alias.py:56-57 | leaving empties the registry |
| Aliases.AliasManager.GetUniqueAlias | dcorm/alias.py:59-67 | names the alias with the least unregistered `t<N>` and returns it; the registry is unchanged |
| Aliases.AliasManager.GetAliasName | dcorm/alias.py:69-74 | a set name is returned untouched; a missing one is generated |
| Aliases.AliasManager.RegisterAlias | dcorm/alias.py:76-81 | a registered name is a RuntimeError `Duplicate alias: <name>` that leaves the registry unchanged; otherwise exactly one entry is added; a generated name never collides |
| Aliases.AliasManager.RegisterNext | dcorm/alias.py:76-86 | one loop iteration: the registry, the name of every occurrence of the alias and the error are exactly `Step`'s |
| Aliases.AliasManager.RegisterAliases | dcorm/alias.py:83-86 | the registry, the aliases' names and the error are exactly `Register`'s, from the registry and names it starts with; no alias changes model |
| ExpressionBase.ExpressionTypeOf | dcorm/expression_base.py:16-17 | a subclass builds with `typ` when given, else with itself |
| ExpressionBase.CoreClassesBuildExpressions | dcorm/column.py:23 | both `Expression` and `Column` (declared with `typ=Expression`) build Expressions |
| ExpressionBase.Apply | dcorm/expression_base.py:27-133 | a method builds one Expression from `self` and `other`, in either order, except that `__and__`, `__or__` and their reflections against True or False return `self` or that operand |
| ExpressionBase.ShortCircuits | dcorm/expression_base.py:27-61 | `a & True` is `a`, `a & False` is False, `a \| True` is True, `a \| False` is `a`, in plain and reflected form |
| ExpressionBase.ReflectedSwaps | dcorm/expression_base.py:27-133 | a plain method builds `(self, op, other)`; its reflected twin builds `(other, op, self)` with the same operator, for every `other` except True and False with `__rand__` / `__ror__`, which short-circuit |
| ExpressionBase.NoneComparisons | dcorm/expression_base.py:93-115 | `== None` builds `IS`, `!= None` builds `IS NOT`, `==` anything else builds `=` |
| ExpressionBase.LtAndNeAsWritten | dcorm/expression_base.py:99-115 | as written, `<` builds `=` and `!=` with an operand other than None builds `>=` |
| ExpressionBase.ApplyIntended | dcorm/expression_base.py:93-115 | the corrected methods differ from the written ones only at `<` and `!=` |
| ExpressionBase.IntendedComparisons | dcorm/expression_base.py:93-115 | corrected, every comparison against a value other than None builds its own operator |
| ExpressionBase.InvertBy | dcorm/expression_base.py:19-24 | the steps of `~x`: when evaluating `Operator.NOT` fails, `~x` fails with that error; when it succeeds, so does `~x` |
| ExpressionBase.InvertAsWritten | dcorm/expression_base.py:19-24 | as written, `~x` fails exactly when the enum declares no `NOT` |
| ExpressionBase.InvertAsWrittenRaises | dcorm/expression_base.py:19-24 | as written, `~x` raises AttributeError on every expression and column |
| ExpressionBase.InvertIntendedSteps | dcorm/expression_base.py:19-24 | with a `NOT` member, the same steps compute the corrected `Invert` |
| ExpressionBase.Invert | dcorm/expression_base.py:19-24 | corrected, `~x` builds an expression, or returns a negation's operand |
| ExpressionBase.DoubleNegation | dcorm/expression_base.py:19-24 | corrected, `~~x` is `x` for any x that is not itself a negation, and `~(NOT y)` is `y` |
| ExpressionBase.DivisionUnreachable | dcorm/expression_base.py:81-85 | `__div__` and `__rdiv__` are names no Python 3 operator calls |
| ExpressionBase.IntendedName | dcorm/expression_base.py:81-85 | the corrected names differ from the written ones only for division |
| ExpressionBase.IntendedNamesReachable | dcorm/expression_base.py:27-133 | under the corrected names every method is reachable from a Python 3 operator |
| ExpressionBase.PyAnd | dcorm/queries/query.py:23 | `_where & e` on a bool or an expression is again a bool or an expression |
| ExpressionBase.PyAndUnits | dcorm/expression_base.py:27-43 | True is the unit and False absorbs, from either side |
| ExpressionFunctions.TargetClass.constructor | dcorm/expression_functions.py:256-270 | a class to decorate starts with no generated methods |
| ExpressionFunctions.SlotNamedOfName | dcorm/expression_functions.py:225-253 | every `METHODS` key is found again from its name |
| ExpressionFunctions.SlotNameInjective | dcorm/expression_functions.py:225-253 | the 27 keys of `METHODS` are distinct names |
| ExpressionFunctions.OrderComplete | dcorm/expression_functions.py:225-253 | every key occurs in the dictionary's order |
| ExpressionFunctions.InstallsLookup | dcorm/expression_functions.py:261-262 | after the loop over some keys exactly those keys are installed, each with its own entry |
| ExpressionFunctions.InstalledLookup | dcorm/expression_functions.py:261-262 | after the loop every key of `METHODS` holds its own factory, built with `typ` |
| ExpressionFunctions.InstalledNames | dcorm/expression_functions.py:261-262 | nothing but the names of `METHODS` is installed |
| ExpressionFunctions.Build | dcorm/expression_functions.py:12-222 | for a `typ` that constructs an Expression from `(lhs, op, rhs)`: `typ(lhs, op, rhs)` builds that node, and raises TypeError exactly when `typ` is None |
| ExpressionFunctions.CallBinary | dcorm/expression_functions.py:21-222 | for a `typ` that constructs an Expression: a generated binary method succeeds whenever a `typ` is given; its only error is the TypeError of calling a missing `typ` |
| ExpressionFunctions.CallUnaryBy | dcorm/expression_functions.py:12-18 | the argument `Operator.NOT` is evaluated before `typ` is called: its error is the call's; otherwise, for a `typ` that constructs an Expression, the call succeeds exactly when there is a `typ` |
| ExpressionFunctions.CallUnary | dcorm/expression_functions.py:12-18 | as written, the negation raises AttributeError whenever the enum declares no `NOT` |
| ExpressionFunctions.CallUnaryRaises | dcorm/expression_functions.py:12-18 | as written, the negation raises AttributeError, with or without a `typ` |
| ExpressionFunctions.CallUnaryIntended | dcorm/expression_functions.py:12-18 | corrected, the negation always builds `(self, NOT)`, and with no `typ` it is a TypeError |
| ExpressionFunctions.ReflectedEntries | dcorm/expression_functions.py:225-253 | each reflected name maps to its plain method's factory with `inverse=True`; each plain name is built without it |
| ExpressionFunctions.AgreesWithBase | dcorm/expression_functions.py:21-253 | with a class to build with, every installed binary method behaves as the ExpressionBase method of the same name, short-circuits, None rewriting and operand swapping included |
| ExpressionFunctions.NoDoubleNegation | dcorm/expression_functions.py:12-18 | the installed negation wraps a negation again, where ExpressionBase's undoes it |
| ExpressionFunctions.Install | dcorm/expression_functions.py:260-264 | the loop sets every entry of `METHODS` on the target, built with `typ`, and keeps the other attributes |
| ExpressionFunctions.InstallEach | dcorm/expression_functions.py:261-262 | `setattr` for each key in turn leaves the old attributes overridden by one generated method per key |
| ExpressionFunctions.ExpressionGenerator | dcorm/expression_functions.py:256-270 | bare use installs every entry on `cls` with `typ=cls` and returns `cls`; without a class it returns the decorator |
| ExpressionFunctions.Decorate | dcorm/expression_functions.py:260-264 | the decorator installs every entry with its `typ`; applied to None it raises AttributeError |
| LegacySql.Texts | dcorm/sql.py:42-43 | the items' texts, one per item, in order |
| LegacySql.Sql | dcorm/sql.py:15-45 | `sql(obj)`: only an object with a non-string `__sql__` attribute renders as something other than text |
| LegacySql.SqlAll | dcorm/sql.py:42-43 | when every item renders, there is one rendering per item |
| LegacySql.NoneIsNull | dcorm/sql.py:18-19 | None renders as `NULL` |
| LegacySql.BoolAsInt | dcorm/sql.py:27-28 | a bool renders as the int it equals, `1` or `0` |
| LegacySql.IntRoundTrip | dcorm/sql.py:39-40 | an int renders as decimal text that reads back as the same int |
| LegacySql.SqlAllOk | dcorm/sql.py:42-43 | the items render exactly when each renders, each in its place |
| LegacySql.ContainerText | dcorm/sql.py:42-43 | a container renders as `(` + its items joined by `, ` + `)` exactly when every item renders as text |
| LegacySql.EmptyContainer | dcorm/sql.py:42-43 | an empty container renders as `()` |
| LegacySql.SingletonContainer | dcorm/sql.py:42-43 | a one-item container renders as the item in parentheses |
| LegacySql.Unrenderable | dcorm/sql.py:45 | an unknown object raises TypeError, and so does any container holding one |
| LegacySql.OnlyTypeError | dcorm/sql.py:15-45 | the only exception `sql` raises is TypeError |
| LegacySql.OnlyTypeErrorAll | dcorm/sql.py:42-43 | rendering items raises nothing but TypeError |
| Identifiers.FieldOf | dcorm/nodes.py:20-22 | `table.field(n)` is the table's segments followed by n, one segment longer |
| Identifiers.SplitFieldOf | dcorm/sql.py:77-79 | splitting `table.field(n)` gives back the table and n, and a field identifier is rebuilt from its parts |
| Identifiers.FieldOfInjective | dcorm/nodes.py:20-22 | distinct tables or names give distinct field identifiers |
| Fields.Field.Asc | dcorm/field.py:24-26 | `asc()` is `OrderedField(self, ASC)` |
| Fields.Field.Desc | dcorm/field.py:28-30 | `desc()` is `OrderedField(self, DESC)` |
| Fields.OrderingRenders | dcorm/ordering.py:9-18 | an ordering renders as `ASC` or `DESC` |
| Fields.OrderedFieldSql | dcorm/field.py:39-42 | `OrderedField.__sql__` fails only with TypeError, the one error `sql()` raises |
| Fields.OrderedSqlShape | dcorm/field.py:39-42 | text followed by one space and the ordering's keyword |
| Fields.OrderedFieldRaises | dcorm/field.py:39-42 | as written, rendering an ordered field always raises TypeError, because the field tuple holds a `dataclasses.Field` |
| Inspection.ModelFields | dcorm/inspection.py:23-27 | one field per declared field, in declaration order, bound to the model, with no value |
| Inspection.RecordFields | dcorm/inspection.py:30-34 | one field per declared field of the record's class, in order |
| Inspection.Fields | dcorm/inspection.py:37-46 | a class gives its fields, a record its own, anything else TypeError |
| Inspection.RecordFieldsAgree | dcorm/inspection.py:30-34 | a record's fields are the class's fields with the record's values: a set attribute is bound, a missing one reads the class attribute |
| Inspection.FieldCount | dcorm/inspection.py:37-46 | `fields` succeeds exactly on classes and records and yields one field per declared field |
| Queries.WhereFold | dcorm/queries/query.py:17-24 | the WHERE clause folded from True stays a bool or an expression |
| Queries.NonTrue | dcorm/queries/query.py:23 | the conditions other than True, drawn from the given ones |
| Queries.AndChain | dcorm/expression_base.py:34 | expressions joined left-deep with AND; none at all is True |
| Queries.WhereFoldShape | dcorm/queries/query.py:17-24 | after any `where` calls the clause is False once any condition was False; otherwise it is the expressions given, Trues dropped, joined left-deep with AND, or True |
| Queries.WhereFoldSnoc | dcorm/queries/query.py:21-24 | one more `where` ANDs the new condition onto the clause built so far |
| Queries.WhereFoldFalse | dcorm/queries/query.py:21-24 | once a condition was False the clause stays False |
| Queries.WhereFoldChain | dcorm/queries/query.py:21-24 | without a False the clause is the AND chain of the conditions other than True |
| Queries.AndChainSnoc | dcorm/expression_base.py:34 | ANDing one more expression onto a chain extends it on the right |
| Queries.Query.constructor | dcorm/queries/query.py:17-19 | a new query's WHERE clause is True |
| Queries.Query.Where | dcorm/queries/query.py:21-24 | `where(e)` sets the clause to `clause & e` and returns the same query |
| Queries.OrderingOf | dcorm/queries/select.py:51-54 | fields become ascending, ordered fields are kept, in the order given |
| Queries.OrderingIdempotent | dcorm/queries/select.py:51-54 | ordering by an ordering again gives the same ordering |
| Queries.SelectQuery.constructor | dcorm/queries/select.py:38-44 | a SELECT query with WHERE True, no ordering, no limit and no offset attribute |
| Queries.SelectQuery.OrderBy | dcorm/queries/select.py:46-55 | replaces the ordering and warns exactly when there was one; returns the same query |
| Queries.SelectQuery.Limit | dcorm/queries/select.py:57-62 | replaces the limit and warns exactly when there was one; returns None |
| Queries.SelectQuery.Offset | dcorm/queries/select.py:64-69 | fails with AttributeError and changes nothing while no offset was ever assigned; otherwise replaces it with a warning |
| Queries.ExtractFields | dcorm/queries/select.py:21-32 | a field yields itself and a record its fields; a model class, like anything else, is a TypeError |

## Left out

- `Engine.query_string` (dcorm/engine.py:80-83): Python `%`-formatting of arbitrary values, used only for debugging.
- The engine's dialect settings (dcorm/engine.py:22-31): no code reads them. Only the quotes template is modelled.
- `Query.execute` (dcorm/queries/query.py:26-28): it raises NotImplementedError, and execution is out of scope.
- The `_select` list (dcorm/queries/select.py:41): `chain` over a generator of generators yields the generator objects unrun, so it records no fields.
- Warnings: `warnings.warn` output is kept only as a ghost log of what was warned about.
- The `suppress(AttributeError)` dispatch of `Engine.sql` and the `__getattr__` interception of `Alias`: they become the `Node` datatype and the `GetAttr` method.
- `Alias.__namespace__`: a plain getter that nothing in the core reads.
- `Model.__setattr__` coercion (dcorm/model.py:60-73): it calls arbitrary converters and type constructors.
- `dataclass(cls)` and the rest of class creation: a model class is given by its name, fields, table name and database.
- In `sql()` (dcorm/sql.py:30-40), floats, `Decimal`, dates and bytes are not rendered: that is floating-point and library formatting. In `Engine.value`, a float is an opaque bound value.
- `sql()` on an object whose `__sql__` is a method (a model class): it returns the bound method, modelled only as non-text.
- The `Engine` of dcorm/sql.py: its `sql` raises NotImplementedError.
- dcorm/relations.py, dcorm/database.py, dcorm/fields.py, dcorm/field_types.py and dcorm/csq.py are not part of this model. Joins never look up relations.
- dcorm/containers.py is not part of this model beyond its role in `sql()`, where every container type is a sequence of items, rendered in iteration order.
- Text.Lower: lower-cases ASCII letters only, not the rest of Unicode.
- Schema.Alias: an alias of anything but a model class is not modelled. The only alias the core creates is `Model.alias` (dcorm/model.py:78), which passes the model class.
- Engines.Engine.Quote: the quotes template is modelled as the text before and after one `{}`. A template with other braces `str.format` would interpret is not modelled.
- Text.PlaceholderCount: counts `%s` also where it is written `%%s`, which `%`-formatting reads as an escaped `%` and an `s`. The lockstep results speak of Python's placeholders only for text without `%%`.
- Compiler.AliasEmission: the RuntimeError of an unnamed alias keeps its message. The alias object passed as the exception's second argument (dcorm/alias.py:41) is not recorded.
- ExpressionFunctions.Build: a `typ` other than None is taken to construct an `Expression` from `(lhs, operator[, rhs])`. A decorated class whose `__init__` rejects those arguments raises TypeError in the source, and a class that builds an instance of itself renders through its own `__sql__`; neither is modelled.
- ExpressionFunctions.CallBinary: succeeds for every non-None `typ` only under the constructor assumption stated for `ExpressionFunctions.Build`.
- ExpressionFunctions.CallUnaryBy: succeeds exactly when there is a `typ` only under the constructor assumption stated for `ExpressionFunctions.Build`.
- ExpressionBase.Apply: builds `Expression` nodes. Core subclasses only build with `Expression`; another `typ` class is out of scope.
- The engine methods return nothing where Python returns `self` for chaining. The compile specifications read a snapshot of the aliases' state (compiling never changes an alias) instead of the heap.

## Findings

| source | as written | input that shows it | evidently intended | confidence | as-written member | corrected member |
|---|---|---|---|---|---|---|
| dcorm/expression_base.py:19-24 | `~x` and `op_not` refer to `Operator.NOT`, which dcorm/operators.py:9-38 does not declare | `~column`: raises AttributeError | a `NOT` member, so that `~x` builds `(x, NOT)` and `~~x` is `x` | high, not executed | ExpressionBase.InvertAsWrittenRaises | ExpressionBase.Invert |
| dcorm/expression_base.py:99-115 | `__lt__` builds `EQ`; `__ne__` with an operand other than None builds `GE` | `col < 3` builds `col = 3`; `col != 3` builds `col >= 3` | `<` builds `LT`, `!=` builds `NE` | high, not executed | ExpressionBase.LtAndNeAsWritten | ExpressionBase.IntendedComparisons |
| dcorm/expression_base.py:81-85 | the division methods are named `__div__` / `__rdiv__`, which Python 3 never calls | `col / 2`: Python 3 looks up `__truediv__` and raises TypeError | `__truediv__` / `__rtruediv__` | high, not executed | ExpressionBase.DivisionUnreachable | ExpressionBase.IntendedNamesReachable |
