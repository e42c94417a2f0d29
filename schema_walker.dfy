/**
  The schema relation walker of `src/utils.js`: `getFields`, `getFieldsValues`
  and `getVariables` walk the first definition of a parsed GraphQL schema and
  emit text fragments, expanding every field whose FIRST directive is `@link`
  into the type definitions the index points at.

  The parser is not modelled: `rules` maps each key to its already parsed
  type definition. The source has no cycle protection; here every expansion
  of a link spends one unit of `depth`, and a walk that runs out of it fails
  with `TooDeep`. On a self-linking type the source recurses until the stack
  overflows; other walks that fail here may complete with a larger bound.
*/
module SchemaWalker {

  /** One field: its name, the name of its type with one wrapper taken off
      (`type.type.name.value`), and the names of its directives in order. */
  datatype Field = Field(name: string, baseType: string, directives: seq<string>)

  /** The first definition of a parsed schema: a named type and its fields. */
  datatype TypeDef = TypeDef(name: string, fields: seq<Field>)

  datatype WalkError =
    | UnknownRule(key: string)  // rules[key] is undefined, so parsing it throws
    | TooDeep                   // the depth bound ran out

  datatype Result<T> = Ok(value: T) | Err(error: WalkError) {
    predicate IsFailure() { Err? }
    function PropagateFailure<U>(): Result<U> requires Err? { Err(error) }
    function Extract(): T requires Ok? { value }
  }

  type Rules = map<string, TypeDef>

  /** `getType`: the name of the schema's first definition. */
  function GetType(t: TypeDef): (n: string)
    ensures n == t.name
  {
    t.name
  }

  /** Only `directives[0]` is inspected. */
  predicate IsLink(f: Field) {
    |f.directives| > 0 && f.directives[0] == "link"
  }

  /** The index entry `key` is a link target of type `base`. */
  predicate Matches(rules: Rules, key: string, base: string) {
    key in rules && GetType(rules[key]) == base
  }

  /** Every key names a parsed rule, so looking it up cannot throw. */
  predicate Resolved(rules: Rules, keys: seq<string>) {
    forall k :: k in keys ==> k in rules
  }

  /** Number of keys that are link targets of type `base`. */
  function MatchCount(rules: Rules, keys: seq<string>, base: string): nat {
    if keys == [] then 0
    else MatchCount(rules, keys[..|keys| - 1], base)
         + (if Matches(rules, keys[|keys| - 1], base) then 1 else 0)
  }

  /** Sequencing of two walks: the first failure wins, otherwise the outputs concatenate. */
  function Then(a: Result<seq<string>>, b: Result<seq<string>>): Result<seq<string>> {
    if a.Err? then a else if b.Err? then b else Ok(a.value + b.value)
  }

  // ---------------------------------------------------------------------
  // getFields: the outline
  // ---------------------------------------------------------------------

  /** The outline of the fields `fs`, in declared order. */
  function Outline(depth: nat, fs: seq<Field>, rules: Rules, index: seq<string>): Result<seq<string>>
    decreases depth, 2, |fs|
  {
    if fs == [] then Ok([])
    else Then(Outline(depth, fs[..|fs| - 1], rules, index), FieldOutline(depth, fs[|fs| - 1], rules, index))
  }

  /** What one field adds to the outline: its name line; for a link field
      also "{", the expansion over the whole index, and "}". */
  function FieldOutline(depth: nat, f: Field, rules: Rules, index: seq<string>): Result<seq<string>>
    decreases depth, 1, 0
  {
    if !IsLink(f) then Ok([f.name + "\n"])
    else Then(Then(Ok([f.name + "\n", "{"]), Expand(depth, f.baseType, index, rules, index)), Ok(["}"]))
  }

  /** What a link field of type `base` holds between its braces after the
      scan of `keys`: the outline of every matching entry, in key order. */
  function Expand(depth: nat, base: string, keys: seq<string>, rules: Rules, index: seq<string>): Result<seq<string>>
    decreases depth, 0, |keys|
  {
    if keys == [] then Ok([])
    else Then(Expand(depth, base, keys[..|keys| - 1], rules, index), KeyOutline(depth, base, keys[|keys| - 1], rules, index))
  }

  /** What one index entry adds between the braces: the outline of its type
      when that type is `base`. Parsing a missing rule throws. */
  function KeyOutline(depth: nat, base: string, key: string, rules: Rules, index: seq<string>): Result<seq<string>>
    decreases depth, 0, 0
  {
    if key !in rules then Err(UnknownRule(key))
    else if GetType(rules[key]) != base then Ok([])
    else if depth == 0 then Err(TooDeep)
    else Outline(depth - 1, rules[key].fields, rules, index)
  }

  /** `getFields`, as the source builds it: push, push "{", concat, push "}". */
  method GetFields(depth: nat, schema: TypeDef, rules: Rules, index: seq<string>) returns (r: Result<seq<string>>)
    ensures r == Outline(depth, schema.fields, rules, index)
    decreases depth
  {
    var fs := schema.fields;
    var fields: seq<string> := [];
    var i := 0;
    while i < |fs|
      invariant 0 <= i <= |fs|
      invariant Outline(depth, fs[..i], rules, index) == Ok(fields)
    {
      var f := fs[i];
      assert fs[..i + 1][..i] == fs[..i];
      ghost var before := fields;
      fields := fields + [f.name + "\n"];
      if IsLink(f) {
        fields := fields + ["{"];
        var j := 0;
        while j < |index|
          invariant 0 <= j <= |index|
          invariant Expand(depth, f.baseType, index[..j], rules, index).Ok?
          invariant fields == before + [f.name + "\n", "{"] + Expand(depth, f.baseType, index[..j], rules, index).value
        {
          var key := index[j];
          assert index[..j + 1][..j] == index[..j];
          if key !in rules {
            r := Err(UnknownRule(key));
            ExpandErrPrefix(depth, f.baseType, index, j + 1, rules, index);
            FailedField(depth, fs, i, rules, index);
            return;
          }
          if GetType(rules[key]) == f.baseType {
            if depth == 0 {
              r := Err(TooDeep);
              ExpandErrPrefix(depth, f.baseType, index, j + 1, rules, index);
              FailedField(depth, fs, i, rules, index);
              return;
            }
            var child := GetFields(depth - 1, rules[key], rules, index);
            if child.Err? {
              r := child;
              ExpandErrPrefix(depth, f.baseType, index, j + 1, rules, index);
              FailedField(depth, fs, i, rules, index);
              return;
            }
            fields := fields + child.value;
          }
          j := j + 1;
        }
        assert index[..j] == index;
        fields := fields + ["}"];
        assert fields == before + ([f.name + "\n", "{"] + Expand(depth, f.baseType, index, rules, index).value + ["}"]);
      }
      i := i + 1;
    }
    assert fs[..i] == fs;
    r := Ok(fields);
  }

  /** A failed field makes the whole outline fail with its error. */
  lemma FailedField(depth: nat, fs: seq<Field>, i: nat, rules: Rules, index: seq<string>)
    requires i < |fs| && IsLink(fs[i])
    requires Outline(depth, fs[..i], rules, index).Ok?
    requires Expand(depth, fs[i].baseType, index, rules, index).Err?
    ensures Outline(depth, fs, rules, index) == Expand(depth, fs[i].baseType, index, rules, index)
  {
    assert fs[..i + 1][..i] == fs[..i];
    OutlineErrPrefix(depth, fs, i + 1, rules, index);
  }

  /** Once a prefix of the fields fails, the whole outline fails the same way. */
  lemma {:induction false} OutlineErrPrefix(depth: nat, fs: seq<Field>, i: nat, rules: Rules, index: seq<string>)
    requires i <= |fs|
    requires Outline(depth, fs[..i], rules, index).Err?
    ensures Outline(depth, fs, rules, index) == Outline(depth, fs[..i], rules, index)
    decreases |fs| - i
  {
    if i == |fs| {
      assert fs[..i] == fs;
    } else {
      var init := fs[..|fs| - 1];
      assert init[..i] == fs[..i];
      OutlineErrPrefix(depth, init, i, rules, index);
    }
  }

  /** Once a prefix of the keys fails, the whole expansion fails the same way. */
  lemma {:induction false} ExpandErrPrefix(depth: nat, base: string, keys: seq<string>, j: nat, rules: Rules, index: seq<string>)
    requires j <= |keys|
    requires Expand(depth, base, keys[..j], rules, index).Err?
    ensures Expand(depth, base, keys, rules, index) == Expand(depth, base, keys[..j], rules, index)
    decreases |keys| - j
  {
    if j == |keys| {
      assert keys[..j] == keys;
    } else {
      var init := keys[..|keys| - 1];
      assert init[..j] == keys[..j];
      ExpandErrPrefix(depth, base, init, j, rules, index);
    }
  }

  // ---------------------------------------------------------------------
  // getFieldsValues and getVariables: the key/type pairs
  // ---------------------------------------------------------------------

  /** `getFieldsValues` quotes the field name, `getVariables` leaves it bare. */
  datatype KeyStyle = Quoted | Bare

  function Key(style: KeyStyle, name: string): string {
    match style
    case Quoted => "\"" + name + "\""
    case Bare => name
  }

  /** The fragment pushed first for every field: three tabs, the key, the quoted base type. */
  function ScalarPair(style: KeyStyle, f: Field): string {
    "\t\t\t" + Key(style, f.name) + ": \"" + f.baseType + "\"\n"
  }

  /** The fragment pushed in place of the scalar pair when a link target matches. */
  function PairPrefix(style: KeyStyle, f: Field): string {
    "\t\t\t" + Key(style, f.name) + ": "
  }

  /** JavaScript's `Array.prototype.join(sep)` on an array of strings. */
  function Join(parts: seq<string>, sep: string): string {
    if |parts| == 0 then ""
    else if |parts| == 1 then parts[0]
    else Join(parts[..|parts| - 1], sep) + sep + parts[|parts| - 1]
  }

  /** `"{" + children + "}"`: the array is turned into a string by joining with ",". */
  function Braced(children: seq<string>): string {
    "{" + Join(children, ",") + "}"
  }

  /** The pairs of the fields `fs`, in declared order. */
  function Pairs(style: KeyStyle, depth: nat, fs: seq<Field>, rules: Rules, index: seq<string>): Result<seq<string>>
    decreases depth, 2, |fs|
  {
    if fs == [] then Ok([])
    else Then(Pairs(style, depth, fs[..|fs| - 1], rules, index), FieldPairs(style, depth, fs[|fs| - 1], rules, index))
  }

  /** The fragments one field leaves: its scalar pair, or for a link field
      what the relinking scan over the whole index leaves. */
  function FieldPairs(style: KeyStyle, depth: nat, f: Field, rules: Rules, index: seq<string>): Result<seq<string>>
    decreases depth, 1, 0
  {
    if !IsLink(f) then Ok([ScalarPair(style, f)])
    else Relink(style, depth, f, index, rules, index)
  }

  /** The fragments a link field `f` ends with after the scan of `keys`: each
      match pops the last fragment, pushes the prefix, then the braced pairs of
      the matched type. With no match the scalar pair stays; with m matches
      the prefix is left m times and only the last match's block survives. */
  function Relink(style: KeyStyle, depth: nat, f: Field, keys: seq<string>, rules: Rules, index: seq<string>): (r: Result<seq<string>>)
    ensures r.Ok? ==> Resolved(rules, keys)
    ensures r.Ok? ==> |r.value| == 1 + MatchCount(rules, keys, f.baseType)
    ensures r.Ok? ==> forall i :: 0 <= i < |r.value| - 1 ==> r.value[i] == PairPrefix(style, f)
    ensures r.Ok? && MatchCount(rules, keys, f.baseType) == 0 ==> r.value == [ScalarPair(style, f)]
    decreases depth, 0, |keys|
  {
    if keys == [] then Ok([ScalarPair(style, f)])
    else
      var before :- Relink(style, depth, f, keys[..|keys| - 1], rules, index);
      var key := keys[|keys| - 1];
      if key !in rules then Err(UnknownRule(key))
      else if GetType(rules[key]) != f.baseType then Ok(before)
      else if depth == 0 then Err(TooDeep)
      else
        var child :- Pairs(style, depth - 1, rules[key].fields, rules, index);
        Ok(before[..|before| - 1] + [PairPrefix(style, f), Braced(child)])
  }

  /** The loop shared by `getFieldsValues` and `getVariables`: push the
      scalar pair of every field, then rework a link field's fragments. */
  method RenderPairs(style: KeyStyle, depth: nat, schema: TypeDef, rules: Rules, index: seq<string>) returns (r: Result<seq<string>>)
    ensures r == Pairs(style, depth, schema.fields, rules, index)
    decreases depth, 1
  {
    var fs := schema.fields;
    var fieldsValue: seq<string> := [];
    var i := 0;
    while i < |fs|
      invariant 0 <= i <= |fs|
      invariant Pairs(style, depth, fs[..i], rules, index) == Ok(fieldsValue)
    {
      var f := fs[i];
      assert fs[..i + 1][..i] == fs[..i];
      ghost var before := fieldsValue;
      fieldsValue := fieldsValue + [ScalarPair(style, f)];
      if IsLink(f) {
        var relinked := RelinkField(style, depth, f, rules, index, before, fieldsValue);
        if relinked.Err? {
          r := relinked;
          FailedPair(style, depth, fs, i, rules, index);
          return;
        }
        fieldsValue := relinked.value;
      }
      i := i + 1;
    }
    assert fs[..i] == fs;
    r := Ok(fieldsValue);
  }

  /** The index scan for one link field: for each matching entry pop the
      last fragment, push the prefix and concat the braced pairs of the
      matched type. `fieldsValue` ends with the field's scalar pair. */
  method RelinkField(style: KeyStyle, depth: nat, f: Field, rules: Rules, index: seq<string>,
                     ghost before: seq<string>, fieldsValue: seq<string>) returns (r: Result<seq<string>>)
    requires fieldsValue == before + [ScalarPair(style, f)]
    ensures r == Then(Ok(before), Relink(style, depth, f, index, rules, index))
    decreases depth, 0
  {
    var out := fieldsValue;
    var j := 0;
    while j < |index|
      invariant 0 <= j <= |index|
      invariant Relink(style, depth, f, index[..j], rules, index).Ok?
      invariant out == before + Relink(style, depth, f, index[..j], rules, index).value
    {
      var key := index[j];
      ghost var own := Relink(style, depth, f, index[..j], rules, index).value;
      if key !in rules {
        r := Err(UnknownRule(key));
        RelinkFailsAt(style, depth, f, index, j, rules, index);
        return;
      }
      if GetType(rules[key]) == f.baseType {
        if depth == 0 {
          r := Err(TooDeep);
          RelinkFailsAt(style, depth, f, index, j, rules, index);
          return;
        }
        PopLast(before, own);
        out := out[..|out| - 1];
        out := out + [PairPrefix(style, f)];
        var child := RenderPairs(style, depth - 1, rules[key], rules, index);
        if child.Err? {
          r := child;
          RelinkFailsAt(style, depth, f, index, j, rules, index);
          return;
        }
        out := out + [Braced(child.value)];
        RelinkMatch(style, depth, f, index, j, rules, index);
      } else {
        RelinkSkip(style, depth, f, index, j, rules, index);
      }
      j := j + 1;
    }
    assert index[..j] == index;
    r := Ok(out);
  }

  /** `getFieldsValues`: pairs with quoted field names. */
  method GetFieldsValues(depth: nat, schema: TypeDef, rules: Rules, index: seq<string>) returns (r: Result<seq<string>>)
    ensures r == Pairs(Quoted, depth, schema.fields, rules, index)
  {
    r := RenderPairs(Quoted, depth, schema, rules, index);
  }

  /** `getVariables`: pairs with bare field names. */
  method GetVariables(depth: nat, schema: TypeDef, rules: Rules, index: seq<string>) returns (r: Result<seq<string>>)
    ensures r == Pairs(Bare, depth, schema.fields, rules, index)
  {
    r := RenderPairs(Bare, depth, schema, rules, index);
  }

  /** A failed link field makes all the pairs fail with its error. */
  lemma FailedPair(style: KeyStyle, depth: nat, fs: seq<Field>, i: nat, rules: Rules, index: seq<string>)
    requires i < |fs| && IsLink(fs[i])
    requires Pairs(style, depth, fs[..i], rules, index).Ok?
    requires Relink(style, depth, fs[i], index, rules, index).Err?
    ensures Pairs(style, depth, fs, rules, index) == Relink(style, depth, fs[i], index, rules, index)
  {
    assert fs[..i + 1][..i] == fs[..i];
    PairsErrPrefix(style, depth, fs, i + 1, rules, index);
  }

  /** Once a prefix of the fields fails, all the pairs fail the same way. */
  lemma {:induction false} PairsErrPrefix(style: KeyStyle, depth: nat, fs: seq<Field>, i: nat, rules: Rules, index: seq<string>)
    requires i <= |fs|
    requires Pairs(style, depth, fs[..i], rules, index).Err?
    ensures Pairs(style, depth, fs, rules, index) == Pairs(style, depth, fs[..i], rules, index)
    decreases |fs| - i
  {
    if i == |fs| {
      assert fs[..i] == fs;
    } else {
      var init := fs[..|fs| - 1];
      assert init[..i] == fs[..i];
      PairsErrPrefix(style, depth, init, i, rules, index);
    }
  }

  /** Once a prefix of the keys fails, the relinking fails the same way. */
  lemma {:induction false} RelinkErrPrefix(style: KeyStyle, depth: nat, f: Field, keys: seq<string>, j: nat, rules: Rules, index: seq<string>)
    requires j <= |keys|
    requires Relink(style, depth, f, keys[..j], rules, index).Err?
    ensures Relink(style, depth, f, keys, rules, index) == Relink(style, depth, f, keys[..j], rules, index)
    decreases |keys| - j
  {
    if j == |keys| {
      assert keys[..j] == keys;
    } else {
      var init := keys[..|keys| - 1];
      assert init[..j] == keys[..j];
      RelinkErrPrefix(style, depth, f, init, j, rules, index);
    }
  }

  /** Popping from the whole array pops from its last part. */
  lemma PopLast(before: seq<string>, own: seq<string>)
    requires |own| > 0
    ensures (before + own)[..|before + own| - 1] == before + own[..|own| - 1]
  {
  }

  /** An index entry that is not a link target leaves the fragments as they are. */
  lemma RelinkSkip(style: KeyStyle, depth: nat, f: Field, keys: seq<string>, j: nat, rules: Rules, index: seq<string>)
    requires j < |keys| && keys[j] in rules && GetType(rules[keys[j]]) != f.baseType
    requires Relink(style, depth, f, keys[..j], rules, index).Ok?
    ensures Relink(style, depth, f, keys[..j + 1], rules, index) == Relink(style, depth, f, keys[..j], rules, index)
  {
    assert keys[..j + 1][..j] == keys[..j];
  }

  /** A link target pops the last fragment and pushes the prefix and its block. */
  lemma RelinkMatch(style: KeyStyle, depth: nat, f: Field, keys: seq<string>, j: nat, rules: Rules, index: seq<string>)
    requires j < |keys| && Matches(rules, keys[j], f.baseType) && depth > 0
    requires Relink(style, depth, f, keys[..j], rules, index).Ok?
    requires Pairs(style, depth - 1, rules[keys[j]].fields, rules, index).Ok?
    ensures var own := Relink(style, depth, f, keys[..j], rules, index).value;
      var child := Pairs(style, depth - 1, rules[keys[j]].fields, rules, index).value;
      Relink(style, depth, f, keys[..j + 1], rules, index) == Ok(own[..|own| - 1] + [PairPrefix(style, f), Braced(child)])
  {
    assert keys[..j + 1][..j] == keys[..j];
  }

  /** A failure at key `j` after the earlier keys succeeded is the failure of the whole scan. */
  lemma RelinkFailsAt(style: KeyStyle, depth: nat, f: Field, keys: seq<string>, j: nat, rules: Rules, index: seq<string>)
    requires j < |keys|
    requires Relink(style, depth, f, keys[..j], rules, index).Ok?
    ensures keys[j] !in rules ==> Relink(style, depth, f, keys, rules, index) == Err(UnknownRule(keys[j]))
    ensures Matches(rules, keys[j], f.baseType) && depth == 0 ==> Relink(style, depth, f, keys, rules, index) == Err(TooDeep)
    ensures Matches(rules, keys[j], f.baseType) && depth > 0 && Pairs(style, depth - 1, rules[keys[j]].fields, rules, index).Err? ==>
      Relink(style, depth, f, keys, rules, index) == Pairs(style, depth - 1, rules[keys[j]].fields, rules, index)
  {
    assert keys[..j + 1][..j] == keys[..j];
    if Relink(style, depth, f, keys[..j + 1], rules, index).Err? {
      RelinkErrPrefix(style, depth, f, keys, j + 1, rules, index);
    }
  }

  // ---------------------------------------------------------------------
  // Properties of the walks
  // ---------------------------------------------------------------------

  /** Sequencing is associative: grouping does not change the first failure or the output. */
  lemma ThenAssoc(a: Result<seq<string>>, b: Result<seq<string>>, c: Result<seq<string>>)
    ensures Then(Then(a, b), c) == Then(a, Then(b, c))
  {
    if a.Ok? && b.Ok? && c.Ok? {
      assert (a.value + b.value) + c.value == a.value + (b.value + c.value);
    }
  }

  /** Every key names a parsed rule and none is a link target of type `base`. */
  predicate NoTarget(rules: Rules, keys: seq<string>, base: string) {
    forall k :: k in keys ==> k in rules && GetType(rules[k]) != base
  }

  /** A schema without link fields outlines to exactly one line per field, in order. */
  lemma {:induction false} LinkFreeOutline(depth: nat, fs: seq<Field>, rules: Rules, index: seq<string>)
    requires forall i :: 0 <= i < |fs| ==> !IsLink(fs[i])
    ensures Outline(depth, fs, rules, index) == Ok(seq(|fs|, i requires 0 <= i < |fs| => fs[i].name + "\n"))
  {
    if fs == [] {
      assert seq(|fs|, i requires 0 <= i < |fs| => fs[i].name + "\n") == [];
    } else {
      var init := fs[..|fs| - 1];
      LinkFreeOutline(depth, init, rules, index);
      assert seq(|fs|, i requires 0 <= i < |fs| => fs[i].name + "\n")
          == seq(|init|, i requires 0 <= i < |init| => init[i].name + "\n") + [fs[|fs| - 1].name + "\n"];
    }
  }

  /** A schema without link fields gives exactly one scalar pair per field, in order. */
  lemma {:induction false} LinkFreePairs(style: KeyStyle, depth: nat, fs: seq<Field>, rules: Rules, index: seq<string>)
    requires forall i :: 0 <= i < |fs| ==> !IsLink(fs[i])
    ensures Pairs(style, depth, fs, rules, index) == Ok(seq(|fs|, i requires 0 <= i < |fs| => ScalarPair(style, fs[i])))
  {
    if fs == [] {
      assert seq(|fs|, i requires 0 <= i < |fs| => ScalarPair(style, fs[i])) == [];
    } else {
      var init := fs[..|fs| - 1];
      LinkFreePairs(style, depth, init, rules, index);
      assert seq(|fs|, i requires 0 <= i < |fs| => ScalarPair(style, fs[i]))
          == seq(|init|, i requires 0 <= i < |init| => ScalarPair(style, init[i])) + [ScalarPair(style, fs[|fs| - 1])];
    }
  }

  /** The outline of `a + b` is the outline of `a` followed by that of `b`:
      what a field contributes does not depend on the fields around it. */
  lemma {:induction false} OutlineAppend(depth: nat, a: seq<Field>, b: seq<Field>, rules: Rules, index: seq<string>)
    ensures Outline(depth, a + b, rules, index) == Then(Outline(depth, a, rules, index), Outline(depth, b, rules, index))
    decreases |b|
  {
    if b == [] {
      assert a + b == a;
      var r := Outline(depth, a, rules, index);
      if r.Ok? { assert r.value + [] == r.value; }
    } else {
      var init := b[..|b| - 1];
      assert (a + b)[..|a + b| - 1] == a + init;
      assert (a + b)[|a + b| - 1] == b[|b| - 1];
      OutlineAppend(depth, a, init, rules, index);
      ThenAssoc(Outline(depth, a, rules, index), Outline(depth, init, rules, index), FieldOutline(depth, b[|b| - 1], rules, index));
    }
  }

  /** The pairs of `a + b` are those of `a` followed by those of `b`. */
  lemma {:induction false} PairsAppend(style: KeyStyle, depth: nat, a: seq<Field>, b: seq<Field>, rules: Rules, index: seq<string>)
    ensures Pairs(style, depth, a + b, rules, index) == Then(Pairs(style, depth, a, rules, index), Pairs(style, depth, b, rules, index))
    decreases |b|
  {
    if b == [] {
      assert a + b == a;
      var r := Pairs(style, depth, a, rules, index);
      if r.Ok? { assert r.value + [] == r.value; }
    } else {
      var init := b[..|b| - 1];
      assert (a + b)[..|a + b| - 1] == a + init;
      assert (a + b)[|a + b| - 1] == b[|b| - 1];
      PairsAppend(style, depth, a, init, rules, index);
      ThenAssoc(Pairs(style, depth, a, rules, index), Pairs(style, depth, init, rules, index), FieldPairs(style, depth, b[|b| - 1], rules, index));
    }
  }

  /** Scanning `a + b` expands the targets of `a`, then those of `b`: every
      matching index entry contributes its own block, with no deduplication. */
  lemma {:induction false} ExpandAppend(depth: nat, base: string, a: seq<string>, b: seq<string>, rules: Rules, index: seq<string>)
    ensures Expand(depth, base, a + b, rules, index) == Then(Expand(depth, base, a, rules, index), Expand(depth, base, b, rules, index))
    decreases |b|
  {
    if b == [] {
      assert a + b == a;
      var r := Expand(depth, base, a, rules, index);
      if r.Ok? { assert r.value + [] == r.value; }
    } else {
      var init := b[..|b| - 1];
      assert (a + b)[..|a + b| - 1] == a + init;
      assert (a + b)[|a + b| - 1] == b[|b| - 1];
      ExpandAppend(depth, base, a, init, rules, index);
      ThenAssoc(Expand(depth, base, a, rules, index), Expand(depth, base, init, rules, index), KeyOutline(depth, base, b[|b| - 1], rules, index));
    }
  }

  /** The outline of a single field is what that field contributes. */
  lemma OneField(style: KeyStyle, depth: nat, f: Field, rules: Rules, index: seq<string>)
    ensures Outline(depth, [f], rules, index) == FieldOutline(depth, f, rules, index)
    ensures Pairs(style, depth, [f], rules, index) == FieldPairs(style, depth, f, rules, index)
  {
    assert [f][..0] == [];
    var o := FieldOutline(depth, f, rules, index);
    if o.Ok? { assert [] + o.value == o.value; }
    var p := FieldPairs(style, depth, f, rules, index);
    if p.Ok? { assert [] + p.value == p.value; }
  }

  /** With no link target among resolved keys, nothing sits between the braces. */
  lemma {:induction false} ExpandNoTarget(depth: nat, base: string, keys: seq<string>, rules: Rules, index: seq<string>)
    requires NoTarget(rules, keys, base)
    ensures Expand(depth, base, keys, rules, index) == Ok([])
  {
    if keys != [] {
      var init := keys[..|keys| - 1];
      assert keys[|keys| - 1] in keys;
      assert NoTarget(rules, init, base);
      ExpandNoTarget(depth, base, init, rules, index);
      assert KeyOutline(depth, base, keys[|keys| - 1], rules, index) == Ok([]);
      var none: seq<string> := [];
      assert none + none == none;
    }
  }

  /** With no link target among resolved keys, the scalar pair stays. */
  lemma {:induction false} RelinkNoTarget(style: KeyStyle, depth: nat, f: Field, keys: seq<string>, rules: Rules, index: seq<string>)
    requires NoTarget(rules, keys, f.baseType)
    ensures Relink(style, depth, f, keys, rules, index) == Ok([ScalarPair(style, f)])
  {
    if keys != [] {
      var init := keys[..|keys| - 1];
      assert keys[|keys| - 1] in keys;
      assert keys[|keys| - 1] in rules && GetType(rules[keys[|keys| - 1]]) != f.baseType;
      assert NoTarget(rules, init, f.baseType);
      RelinkNoTarget(style, depth, f, init, rules, index);
      assert Relink(style, depth, f, init, rules, index) == Ok([ScalarPair(style, f)]);
    }
  }

  /** A link field without a target in the index: the outline shows the name
      line and an empty "{" "}" block, the pairs are those of a plain field. */
  lemma UnmatchedLink(style: KeyStyle, depth: nat, f: Field, rules: Rules, index: seq<string>)
    requires IsLink(f) && NoTarget(rules, index, f.baseType)
    ensures Outline(depth, [f], rules, index) == Ok([f.name + "\n", "{", "}"])
    ensures Pairs(style, depth, [f], rules, index) == Ok([ScalarPair(style, f)])
  {
    OneField(style, depth, f, rules, index);
    ExpandNoTarget(depth, f.baseType, index, rules, index);
    assert [f.name + "\n", "{"] + [] + ["}"] == [f.name + "\n", "{", "}"];
    RelinkNoTarget(style, depth, f, index, rules, index);
  }

  /** Only the first directive counts: a field whose first directive is not
      `link` renders as a plain field even when `link` comes later. */
  lemma FirstDirectiveOnly(style: KeyStyle, depth: nat, f: Field, rules: Rules, index: seq<string>)
    requires |f.directives| > 0 && f.directives[0] != "link"
    ensures Outline(depth, [f], rules, index) == Ok([f.name + "\n"])
    ensures Pairs(style, depth, [f], rules, index) == Ok([ScalarPair(style, f)])
  {
    OneField(style, depth, f, rules, index);
    assert !IsLink(f);
    assert FieldOutline(depth, f, rules, index) == Ok([f.name + "\n"]);
    assert FieldPairs(style, depth, f, rules, index) == Ok([ScalarPair(style, f)]);
  }

  /** Exactly one target: the scalar pair is replaced by the prefix and one
      braced block holding the target type's pairs joined by ",". */
  lemma {:induction false} RelinkSingleTarget(style: KeyStyle, depth: nat, f: Field, keys: seq<string>, p: nat, rules: Rules, index: seq<string>)
    requires p < |keys| && Matches(rules, keys[p], f.baseType)
    requires forall q :: 0 <= q < |keys| && q != p ==> keys[q] in rules && GetType(rules[keys[q]]) != f.baseType
    requires depth > 0 && Pairs(style, depth - 1, rules[keys[p]].fields, rules, index).Ok?
    ensures Relink(style, depth, f, keys, rules, index)
         == Ok([PairPrefix(style, f), Braced(Pairs(style, depth - 1, rules[keys[p]].fields, rules, index).value)])
  {
    var init := keys[..|keys| - 1];
    if p == |keys| - 1 {
      assert NoTarget(rules, init, f.baseType) by {
        forall k | k in init ensures k in rules && GetType(rules[k]) != f.baseType {
          var q :| 0 <= q < |init| && init[q] == k;
          assert keys[q] == k;
        }
      }
      RelinkNoTarget(style, depth, f, init, rules, index);
      var child := Pairs(style, depth - 1, rules[keys[p]].fields, rules, index).value;
      assert [ScalarPair(style, f)][..0] + [PairPrefix(style, f), Braced(child)] == [PairPrefix(style, f), Braced(child)];
    } else {
      RelinkSingleTarget(style, depth, f, init, p, rules, index);
    }
  }

  /** With several targets only the block of the last one survives: each
      match pops the block the previous one pushed. */
  lemma {:induction false} RelinkLastTargetWins(style: KeyStyle, depth: nat, f: Field, keys: seq<string>, p: nat, rules: Rules, index: seq<string>)
    requires p < |keys| && Matches(rules, keys[p], f.baseType)
    requires forall q :: p < q < |keys| ==> keys[q] in rules && GetType(rules[keys[q]]) != f.baseType
    requires Relink(style, depth, f, keys, rules, index).Ok?
    ensures depth > 0 && Pairs(style, depth - 1, rules[keys[p]].fields, rules, index).Ok?
    ensures var own := Relink(style, depth, f, keys, rules, index).value;
      own[|own| - 1] == Braced(Pairs(style, depth - 1, rules[keys[p]].fields, rules, index).value)
  {
    var init := keys[..|keys| - 1];
    if p < |keys| - 1 {
      RelinkLastTargetWins(style, depth, f, init, p, rules, index);
    }
  }

  /** The same target listed twice: the outline repeats its block, the pairs
      keep two prefixes and one block. */
  lemma DuplicateTarget(style: KeyStyle, depth: nat, f: Field, key: string, rules: Rules, index: seq<string>)
    requires depth > 0 && Matches(rules, key, f.baseType)
    requires Outline(depth - 1, rules[key].fields, rules, index).Ok?
    requires Pairs(style, depth - 1, rules[key].fields, rules, index).Ok?
    ensures var c := Outline(depth - 1, rules[key].fields, rules, index).value;
      Expand(depth, f.baseType, [key, key], rules, index) == Ok(c + c)
    ensures var c := Pairs(style, depth - 1, rules[key].fields, rules, index).value;
      Relink(style, depth, f, [key, key], rules, index) == Ok([PairPrefix(style, f), PairPrefix(style, f), Braced(c)])
  {
    assert [key, key][..1] == [key];
    assert [key][..0] == [];
    var c := Outline(depth - 1, rules[key].fields, rules, index).value;
    assert Expand(depth, f.baseType, [key], rules, index) == Ok([] + c);
    assert [] + c == c;
    var d := Pairs(style, depth - 1, rules[key].fields, rules, index).value;
    var once := [PairPrefix(style, f), Braced(d)];
    assert Relink(style, depth, f, [key], rules, index) == Ok([ScalarPair(style, f)][..0] + once);
    assert [ScalarPair(style, f)][..0] + once == once;
    assert once[..1] + once == [PairPrefix(style, f), PairPrefix(style, f), Braced(d)];
  }

  /** One more unit of depth never changes a walk that already completed.
      (A walk that fails with `TooDeep` may still complete under a larger bound.) */
  lemma {:induction false} OutlineDeeper(depth: nat, fs: seq<Field>, rules: Rules, index: seq<string>)
    requires Outline(depth, fs, rules, index).Ok?
    ensures Outline(depth + 1, fs, rules, index) == Outline(depth, fs, rules, index)
    decreases depth, 1, |fs|
  {
    if fs != [] {
      var f := fs[|fs| - 1];
      OutlineDeeper(depth, fs[..|fs| - 1], rules, index);
      if IsLink(f) {
        ExpandDeeper(depth, f.baseType, index, rules, index);
      }
    }
  }

  lemma {:induction false} ExpandDeeper(depth: nat, base: string, keys: seq<string>, rules: Rules, index: seq<string>)
    requires Expand(depth, base, keys, rules, index).Ok?
    ensures Expand(depth + 1, base, keys, rules, index) == Expand(depth, base, keys, rules, index)
    decreases depth, 0, |keys|
  {
    if keys != [] {
      var key := keys[|keys| - 1];
      ExpandDeeper(depth, base, keys[..|keys| - 1], rules, index);
      if Matches(rules, key, base) {
        OutlineDeeper(depth - 1, rules[key].fields, rules, index);
      }
    }
  }

  /** The same for the pairs. */
  lemma {:induction false} PairsDeeper(style: KeyStyle, depth: nat, fs: seq<Field>, rules: Rules, index: seq<string>)
    requires Pairs(style, depth, fs, rules, index).Ok?
    ensures Pairs(style, depth + 1, fs, rules, index) == Pairs(style, depth, fs, rules, index)
    decreases depth, 1, |fs|
  {
    if fs != [] {
      var f := fs[|fs| - 1];
      PairsDeeper(style, depth, fs[..|fs| - 1], rules, index);
      if IsLink(f) {
        RelinkDeeper(style, depth, f, index, rules, index);
      }
    }
  }

  lemma {:induction false} RelinkDeeper(style: KeyStyle, depth: nat, f: Field, keys: seq<string>, rules: Rules, index: seq<string>)
    requires Relink(style, depth, f, keys, rules, index).Ok?
    ensures Relink(style, depth + 1, f, keys, rules, index) == Relink(style, depth, f, keys, rules, index)
    decreases depth, 0, |keys|
  {
    if keys != [] {
      var key := keys[|keys| - 1];
      RelinkDeeper(style, depth, f, keys[..|keys| - 1], rules, index);
      if Matches(rules, key, f.baseType) {
        PairsDeeper(style, depth - 1, rules[key].fields, rules, index);
      }
    }
  }

  /** `getType` decides the expansion: a single resolved key contributes
      nothing unless the name of its definition is the link's base type, and
      then it contributes that definition's outline. */
  lemma ExpandOneKey(depth: nat, base: string, key: string, rules: Rules, index: seq<string>)
    requires key in rules
    ensures GetType(rules[key]) != base ==> Expand(depth, base, [key], rules, index) == Ok([])
    ensures GetType(rules[key]) == base && depth > 0 ==>
      Expand(depth, base, [key], rules, index) == Outline(depth - 1, rules[key].fields, rules, index)
  {
    assert [key][..0] == [];
    assert Expand(depth, base, [key], rules, index) == Then(Ok([]), KeyOutline(depth, base, key, rules, index));
    if GetType(rules[key]) == base && depth > 0 {
      var o := Outline(depth - 1, rules[key].fields, rules, index);
      assert KeyOutline(depth, base, key, rules, index) == o;
      if o.Ok? {
        assert [] + o.value == o.value;
      }
    } else if GetType(rules[key]) != base {
      var none: seq<string> := [];
      assert KeyOutline(depth, base, key, rules, index) == Ok(none);
      assert none + none == none;
    }
  }

  /** Any larger bound leaves a completed outline unchanged. */
  lemma {:induction false} OutlineLarger(depth: nat, more: nat, fs: seq<Field>, rules: Rules, index: seq<string>)
    requires Outline(depth, fs, rules, index).Ok?
    ensures Outline(depth + more, fs, rules, index) == Outline(depth, fs, rules, index)
    decreases more
  {
    if more > 0 {
      OutlineLarger(depth, more - 1, fs, rules, index);
      OutlineDeeper(depth + more - 1, fs, rules, index);
    }
  }

  /** Any larger bound leaves completed pairs unchanged. */
  lemma {:induction false} PairsLarger(style: KeyStyle, depth: nat, more: nat, fs: seq<Field>, rules: Rules, index: seq<string>)
    requires Pairs(style, depth, fs, rules, index).Ok?
    ensures Pairs(style, depth + more, fs, rules, index) == Pairs(style, depth, fs, rules, index)
    decreases more
  {
    if more > 0 {
      PairsLarger(style, depth, more - 1, fs, rules, index);
      PairsDeeper(style, depth + more - 1, fs, rules, index);
    }
  }

  /** Two walks that fail at the same point with the same error, or both complete. */
  predicate SameOutcome(a: Result<seq<string>>, b: Result<seq<string>>) {
    a.Err? == b.Err? && (a.Err? ==> a.error == b.error)
  }

  /** The outline and the pairs visit the same fields and index entries in the
      same order, so they fail on exactly the same inputs, with the same error. */
  lemma {:induction false} OutlinePairsAgree(style: KeyStyle, depth: nat, fs: seq<Field>, rules: Rules, index: seq<string>)
    ensures SameOutcome(Outline(depth, fs, rules, index), Pairs(style, depth, fs, rules, index))
    decreases depth, 1, |fs|
  {
    if fs != [] {
      var f := fs[|fs| - 1];
      OutlinePairsAgree(style, depth, fs[..|fs| - 1], rules, index);
      if IsLink(f) {
        ExpandRelinkAgree(style, depth, f, index, rules, index);
      }
    }
  }

  lemma {:induction false} ExpandRelinkAgree(style: KeyStyle, depth: nat, f: Field, keys: seq<string>, rules: Rules, index: seq<string>)
    ensures SameOutcome(Expand(depth, f.baseType, keys, rules, index), Relink(style, depth, f, keys, rules, index))
    decreases depth, 0, |keys|
  {
    if keys != [] {
      var key := keys[|keys| - 1];
      ExpandRelinkAgree(style, depth, f, keys[..|keys| - 1], rules, index);
      if Matches(rules, key, f.baseType) && depth > 0 {
        OutlinePairsAgree(style, depth - 1, rules[key].fields, rules, index);
      }
    }
  }

  /** When every index entry names a rule, the only way a walk can fail is by
      running out of depth. */
  lemma {:induction false} OnlyTooDeep(depth: nat, fs: seq<Field>, rules: Rules, index: seq<string>)
    requires Resolved(rules, index)
    ensures Outline(depth, fs, rules, index).Err? ==> Outline(depth, fs, rules, index).error == TooDeep
    decreases depth, 1, |fs|
  {
    if fs != [] {
      var f := fs[|fs| - 1];
      OnlyTooDeep(depth, fs[..|fs| - 1], rules, index);
      if IsLink(f) {
        ExpandOnlyTooDeep(depth, f.baseType, index, rules, index);
      }
    }
  }

  lemma {:induction false} ExpandOnlyTooDeep(depth: nat, base: string, keys: seq<string>, rules: Rules, index: seq<string>)
    requires Resolved(rules, index) && Resolved(rules, keys)
    ensures Expand(depth, base, keys, rules, index).Err? ==> Expand(depth, base, keys, rules, index).error == TooDeep
    decreases depth, 0, |keys|
  {
    if keys != [] {
      var key := keys[|keys| - 1];
      assert key in keys;
      ExpandOnlyTooDeep(depth, base, keys[..|keys| - 1], rules, index);
      if Matches(rules, key, base) && depth > 0 {
        OnlyTooDeep(depth - 1, rules[key].fields, rules, index);
      }
    }
  }

  /** A type with a link field to itself, reachable through the index, never
      completes: the source recurses without end, the model exhausts any depth. */
  lemma {:induction false} SelfLinkNeverCompletes(style: KeyStyle, depth: nat, t: TypeDef, key: string, k: nat, rules: Rules, index: seq<string>)
    requires Resolved(rules, index) && key in index && key in rules && rules[key] == t
    requires k < |t.fields| && IsLink(t.fields[k]) && t.fields[k].baseType == GetType(t)
    ensures Outline(depth, t.fields, rules, index) == Err(TooDeep)
    ensures Pairs(style, depth, t.fields, rules, index) == Err(TooDeep)
    decreases depth
  {
    var fs := t.fields;
    var p :| 0 <= p < |index| && index[p] == key;
    // the entry for `key` fails: at depth 0 directly, otherwise by induction
    if depth > 0 {
      SelfLinkNeverCompletes(style, depth - 1, t, key, k, rules, index);
    }
    assert KeyOutline(depth, t.name, key, rules, index).Err?;
    // so the scan of the index fails
    assert index[..p + 1][..p] == index[..p];
    assert Expand(depth, t.name, index[..p + 1], rules, index).Err?;
    ExpandErrPrefix(depth, t.name, index, p + 1, rules, index);
    // so the field fails, and with it the outline
    assert fs[..k + 1][..k] == fs[..k];
    assert Outline(depth, fs[..k + 1], rules, index).Err?;
    OutlineErrPrefix(depth, fs, k + 1, rules, index);
    OnlyTooDeep(depth, fs, rules, index);
    OutlinePairsAgree(style, depth, fs, rules, index);
  }

  /** A post with a linked author, outlined: the author's fields sit between "{" and "}". */
  lemma PostAuthorOutline()
    ensures var author := Field("author", "Author", ["link"]);
      var title := Field("title", "String", []);
      var rules := map["author" := TypeDef("Author", [Field("id", "ID", [])])];
      Outline(1, [author, title], rules, ["author"]) == Ok(["author\n", "{", "id\n", "}", "title\n"])
  {
    var author := Field("author", "Author", ["link"]);
    var title := Field("title", "String", []);
    var id := Field("id", "ID", []);
    var rules := map["author" := TypeDef("Author", [id])];
    var index := ["author"];
    assert !IsLink(id) && !IsLink(title) && IsLink(author);
    assert "id" + "\n" == "id\n" && "title" + "\n" == "title\n" && "author" + "\n" == "author\n";
    OneField(Quoted, 0, id, rules, index);
    assert Outline(0, [id], rules, index) == Ok(["id\n"]);
    assert KeyOutline(1, "Author", "author", rules, index) == Ok(["id\n"]);
    assert index[..0] == [];
    assert Expand(1, "Author", index, rules, index) == Ok([] + ["id\n"]);
    OneField(Quoted, 1, author, rules, index);
    OneField(Quoted, 1, title, rules, index);
    assert FieldOutline(1, author, rules, index) == Ok(["author\n", "{"] + ([] + ["id\n"]) + ["}"]);
    assert FieldOutline(1, title, rules, index) == Ok(["title\n"]);
    OutlineAppend(1, [author], [title], rules, index);
    assert [author] + [title] == [author, title];
    assert Outline(1, [author, title], rules, index) == Ok(["author\n", "{"] + ([] + ["id\n"]) + ["}"] + ["title\n"]);
    assert ["author\n", "{"] + ([] + ["id\n"]) + ["}"] + ["title\n"] == ["author\n", "{", "id\n", "}", "title\n"];
  }

  /** The same post as pairs: the author's block is ONE fragment, "{", the
      pairs joined by ",", "}". */
  lemma PostAuthorPairs()
    ensures var author := Field("author", "Author", ["link"]);
      var title := Field("title", "String", []);
      var rules := map["author" := TypeDef("Author", [Field("id", "ID", [])])];
      Pairs(Quoted, 1, [author, title], rules, ["author"])
        == Ok(["\t\t\t\"author\": ", "{\t\t\t\"id\": \"ID\"\n}", "\t\t\t\"title\": \"String\"\n"])
  {
    var author := Field("author", "Author", ["link"]);
    var title := Field("title", "String", []);
    var id := Field("id", "ID", []);
    var rules := map["author" := TypeDef("Author", [id])];
    var index := ["author"];
    assert !IsLink(id) && !IsLink(title) && IsLink(author);
    assert ScalarPair(Quoted, id) == "\t\t\t\"id\": \"ID\"\n";
    assert ScalarPair(Quoted, title) == "\t\t\t\"title\": \"String\"\n";
    assert PairPrefix(Quoted, author) == "\t\t\t\"author\": ";
    assert Braced([ScalarPair(Quoted, id)]) == "{\t\t\t\"id\": \"ID\"\n}";
    OneField(Quoted, 0, id, rules, index);
    assert Pairs(Quoted, 0, [id], rules, index) == Ok([ScalarPair(Quoted, id)]);
    OneField(Quoted, 1, author, rules, index);
    OneField(Quoted, 1, title, rules, index);
    assert [author] + [title] == [author, title];
    assert Join([ScalarPair(Quoted, id)], ",") == ScalarPair(Quoted, id);
    RelinkMatch(Quoted, 1, author, index, 0, rules, index);
    assert index[..0] == [] && index[..1] == index;
    assert Relink(Quoted, 1, author, index, rules, index)
        == Ok([ScalarPair(Quoted, author)][..0] + [PairPrefix(Quoted, author), Braced([ScalarPair(Quoted, id)])]);
    PairsAppend(Quoted, 1, [author], [title], rules, index);
    var prefix := PairPrefix(Quoted, author);
    var block := Braced([ScalarPair(Quoted, id)]);
    assert Pairs(Quoted, 1, [author, title], rules, index)
        == Ok(([ScalarPair(Quoted, author)][..0] + [prefix, block]) + [ScalarPair(Quoted, title)]);
    assert ([ScalarPair(Quoted, author)][..0] + [prefix, block]) + [ScalarPair(Quoted, title)]
        == [prefix, block, ScalarPair(Quoted, title)];
  }
}
