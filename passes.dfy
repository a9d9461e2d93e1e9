/**
 * The declaration passes of ConversionProcessor as functions: what each pass registers,
 * which declarations it reaches, and the text it emits for one declaration.
 */
module Passes {
  import opened Wrappers
  import opened Strings
  import opened Syntax
  import opened Registry
  import opened Translate

  /**
   * `ConversionParameters`: the placement policies and hooks. `structSource` is a total
   * function (the pass calls it unconditionally); the other sources may be unset.
   */
  datatype ConversionParameters = ConversionParameters(
    addGeneratedByUr: bool,
    structSource: string -> BaseConfig,
    enumSource: Option<string -> BaseConfig>,
    globalVariableSource: Option<string -> BaseConfig>,
    functionSource: Option<FunctionInfo -> BaseConfig>,
    customGlobalVariableProcessor: Option<(Node, string) -> string>)

  /** The configuration of a `FunctionInfo` whose `Config` is still unset. */
  const NoConfig: BaseConfig := BaseConfig("", "")

  // ---------------------------------------------------------------------------
  // Output buffers (49-76)
  // ---------------------------------------------------------------------------

  /** The header written once into each new buffer; the clock reading is a parameter. */
  function Preamble(timestamp: string): string
  {
    "// Generated by Ur at " + timestamp + "\n" + "\n" + "use std;\n" + "use c_runtime;\n" + "\n"
  }

  /** A freshly created buffer. */
  function NewBuffer(p: ConversionParameters, timestamp: string): string
  {
    if p.addGeneratedByUr then Preamble(timestamp) else ""
  }

  /** The buffer for `source` as `Writer` hands it out: the existing one, or a new one. */
  function Buffer(writers: map<string, string>, source: string, p: ConversionParameters, timestamp: string): string
  {
    if source in writers then writers[source] else NewBuffer(p, timestamp)
  }

  /** Every buffer begins with the text a new buffer gets. */
  ghost predicate BuffersOpened(writers: map<string, string>, p: ConversionParameters, timestamp: string)
  {
    forall k {:trigger writers[k]} :: k in writers ==> StartsWith(writers[k], NewBuffer(p, timestamp))
  }

  /** Buffers are never dropped and only ever grow at the end. */
  ghost predicate Grown(before: map<string, string>, after: map<string, string>)
  {
    forall k {:trigger before[k]} :: k in before ==> k in after && StartsWith(after[k], before[k])
  }

  /** Writing to a buffer keeps every buffer headed and only grows the one written. */
  lemma AppendKeepsBuffers(writers: map<string, string>, source: string, s: string, p: ConversionParameters, timestamp: string)
    requires BuffersOpened(writers, p, timestamp)
    ensures var w := writers[source := Buffer(writers, source, p, timestamp) + s];
            BuffersOpened(w, p, timestamp) && Grown(writers, w)
            && w[source] == Buffer(writers, source, p, timestamp) + s
  {
    var b := Buffer(writers, source, p, timestamp);
    assert StartsWith(b, NewBuffer(p, timestamp));
    PrefixExtends(b, NewBuffer(p, timestamp), s);
    PrefixExtends(b, b, s);
    var w := writers[source := b + s];
    forall k | k in writers
      ensures k in w && StartsWith(w[k], writers[k])
    {
      if k == source {
        assert w[k] == writers[k] + s;
      }
    }
  }

  lemma PrefixExtends(a: string, b: string, s: string)
    requires StartsWith(a, b)
    ensures StartsWith(a + s, b)
  {
    assert (a + s)[..|b|] == a[..|b|];
  }

  lemma GrownTrans(a: map<string, string>, b: map<string, string>, c: map<string, string>)
    requires Grown(a, b) && Grown(b, c)
    ensures Grown(a, c)
  {
    forall k | k in a
      ensures k in c && StartsWith(c[k], a[k])
    {
      assert (c[k][..|b[k]|])[..|a[k]|] == c[k][..|a[k]|];
    }
  }

  // ---------------------------------------------------------------------------
  // Enum auto-numbering (258-323)
  // ---------------------------------------------------------------------------

  /**
   * An enumerator the pass can number. The pass translates only its initializer, so an
   * enumerator without one is accepted; only an initializer must be translatable.
   */
  predicate EnumeratorOk(c: Node)
  {
    |c.children| > 0 ==> WellFormed(c.children[0])
  }

  /** Every enumerator of `e` can be numbered. */
  predicate EnumOk(e: Node)
  {
    forall k :: 0 <= k < |e.children| ==> EnumeratorOk(e.children[k])
  }

  /** What the enum pass translates: the enumerators of the top-level enums outside system headers. */
  predicate EnumsOk(tu: Node)
  {
    forall i :: 0 <= i < |tu.children| && !tu.children[i].inSystemHeader && tu.children[i].kind == EnumDecl ==>
      EnumOk(tu.children[i])
  }

  /** What the global-variable pass translates: the top-level variables outside system headers. */
  predicate GlobalsOk(tu: Node)
  {
    forall i :: 0 <= i < |tu.children| && !tu.children[i].inSystemHeader && tu.children[i].kind == VarDecl ==>
      WellFormed(tu.children[i])
  }

  /** The explicit values of the enumerators (None: no initializer) and the switch state after them. */
  datatype Values = Values(values: seq<Option<string>>, sw: SwitchState)

  /** The first `k` enumerators of `e`: an initializer is translated, in order. */
  function EnumeratorValues(e: Node, k: nat, env: Env, sw: SwitchState): (r: Values)
    requires EnumOk(e) && k <= |e.children|
    ensures |r.values| == k
  {
    if k == 0 then Values([], sw)
    else
      var p := EnumeratorValues(e, k - 1, env, sw);
      var c := e.children[k - 1];
      assert EnumeratorOk(c);
      if |c.children| > 0 then
        var v := Tr(c.children[0], env, p.sw);
        Values(p.values + [Some(v.text)], v.sw)
      else Values(p.values + [None], p.sw)
  }

  /** The counter after one enumerator: a numeric initializer resets it, then it moves on by one. */
  function NextCounter(i: int, value: Option<string>, parse: string -> Option<int>): int
  {
    (if value.Some? && parse(value.value).Some? then parse(value.value).value else i) + 1
  }

  /** The counter `i` after the given enumerators, starting from 0. */
  function EnumCounter(values: seq<Option<string>>, parse: string -> Option<int>): int
  {
    if values == [] then 0
    else NextCounter(EnumCounter(values[..|values| - 1], parse), values[|values| - 1], parse)
  }

  /** The value written for an enumerator: its initializer's text, else the counter. */
  function EnumValueText(counter: int, value: Option<string>): string
  {
    if value.Some? then value.value else IntToString(counter)
  }

  function EnumLine(name: string, value: string): string
  {
    "const " + name + ":i32 = " + value + ";"
  }

  /** The lines for the first `k` enumerators of `e`, each indented by `pad`. */
  function EnumText(e: Node, values: seq<Option<string>>, k: nat, parse: string -> Option<int>, pad: string): string
    requires k <= |values| && k <= |e.children|
  {
    if k == 0 then ""
    else
      EnumText(e, values, k - 1, parse, pad)
      + pad + EnumLine(e.children[k - 1].spelling, EnumValueText(EnumCounter(values[..k - 1], parse), values[k - 1]))
      + "\n"
  }

  /** The lines for the first `k` enumerators depend only on the first `k` values. */
  lemma {:induction false} EnumTextPrefix(e: Node, a: seq<Option<string>>, b: seq<Option<string>>, k: nat, parse: string -> Option<int>, pad: string)
    requires k <= |a| <= |b| && k <= |e.children| && a == b[..|a|]
    ensures EnumText(e, a, k, parse, pad) == EnumText(e, b, k, parse, pad)
  {
    if k > 0 {
      EnumTextPrefix(e, a, b, k - 1, parse, pad);
      assert a[..k - 1] == b[..k - 1];
    }
  }

  /** One more enumerator adds one line, numbered by the counter so far. */
  lemma EnumTextSnoc(e: Node, values: seq<Option<string>>, v: Option<string>, parse: string -> Option<int>, pad: string)
    requires |values| < |e.children|
    ensures EnumText(e, values + [v], |values| + 1, parse, pad)
         == EnumText(e, values, |values|, parse, pad)
            + (pad + EnumLine(e.children[|values|].spelling, EnumValueText(EnumCounter(values, parse), v)) + "\n")
    ensures EnumCounter(values + [v], parse) == NextCounter(EnumCounter(values, parse), v, parse)
  {
    var w := values + [v];
    assert w[..|values|] == values;
    EnumTextPrefix(e, values, w, |values|, parse, pad);
    var t := EnumText(e, values, |values|, parse, pad);
    var l := EnumLine(e.children[|values|].spelling, EnumValueText(EnumCounter(values, parse), v));
    assert t + pad + l + "\n" == t + (pad + l + "\n");
  }

  /** One more enumerator: its initializer, if any, is translated in the state the previous ones left. */
  lemma EnumValuesStep(e: Node, k: nat, env: Env, sw0: SwitchState, values: seq<Option<string>>, sw: SwitchState,
                       v: Option<string>, sw1: SwitchState)
    requires EnumOk(e) && k < |e.children|
    requires EnumeratorValues(e, k, env, sw0) == Values(values, sw)
    requires |e.children[k].children| > 0 ==>
      v == Some(Tr(e.children[k].children[0], env, sw).text) && sw1 == Tr(e.children[k].children[0], env, sw).sw
    requires |e.children[k].children| == 0 ==> v == None && sw1 == sw
    ensures EnumeratorValues(e, k + 1, env, sw0) == Values(values + [v], sw1)
  {
  }

  /** A run of enumerators without initializers counts up by one each. */
  lemma {:induction false} ImplicitRun(values: seq<Option<string>>, a: nat, b: nat, parse: string -> Option<int>)
    requires a <= b <= |values|
    requires forall j :: a <= j < b ==> values[j].None?
    ensures EnumCounter(values[..b], parse) == EnumCounter(values[..a], parse) + (b - a)
    decreases b
  {
    if b > a {
      ImplicitRun(values, a, b - 1, parse);
      assert values[..b][..b - 1] == values[..b - 1];
    }
  }

  /** An enum without initializers numbers its enumerators 0, 1, 2, ... */
  lemma ImplicitFromZero(values: seq<Option<string>>, k: nat, parse: string -> Option<int>)
    requires k <= |values| && forall j :: 0 <= j < k ==> values[j].None?
    ensures EnumCounter(values[..k], parse) == k
  {
    ImplicitRun(values, 0, k, parse);
    assert values[..0] == [];
  }

  /**
   * After a numeric initializer `v` at position j, the next m enumerators without
   * initializers get v + 1, ..., v + m (section 6.7.2.2 paragraph 3 of ISO C11).
   */
  lemma ExplicitResets(values: seq<Option<string>>, j: nat, m: nat, parse: string -> Option<int>)
    requires j + 1 + m <= |values| && values[j].Some? && parse(values[j].value).Some?
    requires forall q :: j < q <= j + m ==> values[q].None?
    ensures EnumCounter(values[..j + 1 + m], parse) == parse(values[j].value).value + 1 + m
  {
    assert values[..j + 1][..j] == values[..j];
    ImplicitRun(values, j + 1, j + 1 + m, parse);
  }

  /**
   * A non-numeric initializer is written as it is but leaves the counter running: the
   * next implicit value is one more than the previous counter, not than the initializer.
   */
  lemma NonNumericKeepsCounting(values: seq<Option<string>>, j: nat, parse: string -> Option<int>)
    requires j < |values| && values[j].Some? && parse(values[j].value).None?
    ensures EnumCounter(values[..j + 1], parse) == EnumCounter(values[..j], parse) + 1
  {
    assert values[..j + 1][..j] == values[..j];
  }

  /** The k-th line of an enum without initializers gives the value k. */
  lemma {:induction false} ImplicitLines(e: Node, values: seq<Option<string>>, k: nat, parse: string -> Option<int>, pad: string)
    requires k <= |values| && k <= |e.children|
    requires forall j :: 0 <= j < |values| ==> values[j].None?
    ensures EnumText(e, values, k, parse, pad) == ImplicitText(e, k, pad)
  {
    if k > 0 {
      ImplicitLines(e, values, k - 1, parse, pad);
      ImplicitFromZero(values, k - 1, parse);
    }
  }

  /** `const N_0:i32 = 0;`, `const N_1:i32 = 1;`, ... for the first k enumerators. */
  function ImplicitText(e: Node, k: nat, pad: string): string
    requires k <= |e.children|
  {
    if k == 0 then "" else ImplicitText(e, k - 1, pad) + pad + EnumLine(e.children[k - 1].spelling, IntToString(k - 1)) + "\n"
  }

  /** The enum's name: its spelling trimmed, else the name of the declaration that names it. */
  function EnumName(n: Node): (r: string)
    ensures Trim(n.spelling) != "" ==> r == Trim(n.spelling)
    ensures Trim(n.spelling) == "" ==> r == n.siblingName
  {
    var t := Trim(n.spelling);
    if t != "" then t else n.siblingName
  }

  // ---------------------------------------------------------------------------
  // Global variables (325-376)
  // ---------------------------------------------------------------------------

  /** A global declaration: finished with `;` if it is not, and made a `const`. */
  function GlobalConst(e: string): (r: string)
    ensures StartsWith(r, "const ") && EndsWith(r, ";")
    ensures EndsWith(e, ";") ==> r == "const " + e
    ensures !EndsWith(e, ";") ==> r == "const " + e + ";"
  {
    "const " + (if EndsWith(e, ";") then e else e + ";")
  }

  /** The hook's rewrite of a global's text, when a hook is set. */
  function Hooked(p: ConversionParameters, n: Node, e: string): string
  {
    if p.customGlobalVariableProcessor.Some? then p.customGlobalVariableProcessor.value(n, e) else e
  }

  // ---------------------------------------------------------------------------
  // Structs (99-256)
  // ---------------------------------------------------------------------------

  predicate IsRecord(n: Node)
  {
    n.kind == StructDecl || n.kind == UnionDecl
  }

  /** A record's name: its spelling, else its sibling's, else `_`. */
  function StructName(n: Node): (r: string)
    ensures r != ""
    ensures n.spelling != "" ==> r == n.spelling
    ensures n.spelling == "" && n.siblingName != "" ==> r == n.siblingName
    ensures n.spelling == "" && n.siblingName == "" ==> r == "_"
  {
    if n.spelling != "" then n.spelling else if n.siblingName != "" then n.siblingName else "_"
  }

  /**
   * Struct preprocessing over the first `hi` children of `n` (99-151): system-header
   * subtrees are skipped, a record is registered under its name unless already emitted
   * and not entered, anything else is entered.
   */
  function PreprocessStructs(infos: map<string, StructInfo>, visited: set<string>, n: Node, hi: nat,
                             source: string -> BaseConfig): map<string, StructInfo>
    requires hi <= |n.children|
    decreases n, 0, hi
  {
    if hi == 0 then infos
    else PreprocessStructsAt(PreprocessStructs(infos, visited, n, hi - 1, source), visited, n.children[hi - 1], source)
  }

  /** Struct preprocessing at one cursor. */
  function PreprocessStructsAt(infos: map<string, StructInfo>, visited: set<string>, c: Node,
                               source: string -> BaseConfig): map<string, StructInfo>
    decreases c, 1
  {
    if c.inSystemHeader then infos
    else if IsRecord(c) then
      var name := StructName(c);
      if name !in visited then infos[name := StructInfo(name, source(name))] else infos
    else PreprocessStructs(infos, visited, c, |c.children|, source)
  }

  /** The names of the records preprocessing reaches. */
  function RecordsReached(n: Node, hi: nat): set<string>
    requires hi <= |n.children|
    decreases n, hi
  {
    if hi == 0 then {}
    else
      var c := n.children[hi - 1];
      RecordsReached(n, hi - 1)
      + if c.inSystemHeader then {} else if IsRecord(c) then {StructName(c)} else RecordsReached(c, |c.children|)
  }

  /** Preprocessing with nothing emitted yet registers exactly the reached records. */
  lemma {:induction false} StructRegistryKeys(infos: map<string, StructInfo>, n: Node, hi: nat, source: string -> BaseConfig)
    requires hi <= |n.children|
    ensures forall k :: k in PreprocessStructs(infos, {}, n, hi, source) <==> k in infos || k in RecordsReached(n, hi)
    decreases n, hi
  {
    if hi > 0 {
      var m := PreprocessStructs(infos, {}, n, hi - 1, source);
      StructRegistryKeys(infos, n, hi - 1, source);
      var c := n.children[hi - 1];
      var r := PreprocessStructs(infos, {}, n, hi, source);
      assert r == PreprocessStructsAt(m, {}, c, source);
      if c.inSystemHeader {
        assert r == m && RecordsReached(n, hi) == RecordsReached(n, hi - 1);
      } else if IsRecord(c) {
        assert r == m[StructName(c) := StructInfo(StructName(c), source(StructName(c)))];
        assert RecordsReached(n, hi) == RecordsReached(n, hi - 1) + {StructName(c)};
      } else {
        StructRegistryKeys(m, c, |c.children|, source);
        assert r == PreprocessStructs(m, {}, c, |c.children|, source);
        assert RecordsReached(n, hi) == RecordsReached(n, hi - 1) + RecordsReached(c, |c.children|);
      }
    }
  }

  /**
   * Each reached record is registered with the configuration the policy gives its name;
   * every other entry is kept.
   */
  lemma {:induction false} StructRegistryValues(infos: map<string, StructInfo>, n: Node, hi: nat, source: string -> BaseConfig)
    requires hi <= |n.children|
    ensures var r := PreprocessStructs(infos, {}, n, hi, source);
            && (forall k :: k in RecordsReached(n, hi) ==> k in r && r[k] == StructInfo(k, source(k)))
            && (forall k :: k in infos && k !in RecordsReached(n, hi) ==> k in r && r[k] == infos[k])
    decreases n, hi
  {
    if hi > 0 {
      var m := PreprocessStructs(infos, {}, n, hi - 1, source);
      StructRegistryValues(infos, n, hi - 1, source);
      var c := n.children[hi - 1];
      var r := PreprocessStructs(infos, {}, n, hi, source);
      assert r == PreprocessStructsAt(m, {}, c, source);
      if c.inSystemHeader {
        assert r == m && RecordsReached(n, hi) == RecordsReached(n, hi - 1);
      } else if IsRecord(c) {
        assert r == m[StructName(c) := StructInfo(StructName(c), source(StructName(c)))];
        assert RecordsReached(n, hi) == RecordsReached(n, hi - 1) + {StructName(c)};
      } else {
        StructRegistryValues(m, c, |c.children|, source);
        assert r == PreprocessStructs(m, {}, c, |c.children|, source);
        assert RecordsReached(n, hi) == RecordsReached(n, hi - 1) + RecordsReached(c, |c.children|);
      }
    }
  }

  /** The names of the records emission can reach below the first `hi` children of `n`: it enters records. */
  function RecordNames(n: Node, hi: nat): set<string>
    requires hi <= |n.children|
    decreases n, 0, hi
  {
    if hi == 0 then {} else RecordNames(n, hi - 1) + RecordNamesAt(n.children[hi - 1])
  }

  /** The record names emission can reach from the cursor `c`. */
  function RecordNamesAt(c: Node): set<string>
    decreases c, 1, 0
  {
    if c.inSystemHeader then {}
    else if IsRecord(c) then {StructName(c)} + RecordNames(c, |c.children|)
    else RecordNames(c, |c.children|)
  }

  /** A field's line: its name made safe, `: `, its Rust type and `,`. */
  function FieldLine(u: Utility, c: Node): string
  {
    u.fixSpecialWords(c.spelling) + ": " + c.ty.rustType + ","
  }

  /** All children are fields outside system headers. */
  predicate FieldsOnly(n: Node)
  {
    FieldsUpTo(n, |n.children|)
  }

  /** The first `k` children are fields outside system headers. */
  predicate FieldsUpTo(n: Node, k: nat)
    requires k <= |n.children|
  {
    k == 0 || (FieldsUpTo(n, k - 1) && n.children[k - 1].kind == FieldDecl && !n.children[k - 1].inSystemHeader)
  }

  lemma {:induction false} FieldAt(n: Node, k: nat, i: nat)
    requires i < k <= |n.children| && FieldsUpTo(n, k)
    ensures n.children[i].kind == FieldDecl && !n.children[i].inSystemHeader
    decreases k
  {
    if i < k - 1 {
      FieldAt(n, k - 1, i);
    }
  }

  /** The lines of the first `k` fields, each indented by `pad`. */
  function FieldsText(n: Node, k: nat, u: Utility, pad: string): (r: string)
    requires k <= |n.children|
    ensures k > 0 ==> r != ""
  {
    if k == 0 then "" else FieldsText(n, k - 1, u, pad) + (pad + FieldLine(u, n.children[k - 1]) + "\n")
  }

  /** Writing `s` to the buffer of `source`; nothing written opens no buffer. */
  function Written(ws: map<string, string>, source: string, s: string, p: ConversionParameters, timestamp: string): map<string, string>
  {
    if s == "" then ws else ws[source := Buffer(ws, source, p, timestamp) + s]
  }

  /** The buffers after the lines of the first `k` fields. */
  function FieldsWritten(ws: map<string, string>, source: string, n: Node, k: nat, pad: string,
                         u: Utility, p: ConversionParameters, timestamp: string): map<string, string>
    requires k <= |n.children|
  {
    Written(ws, source, FieldsText(n, k, u, pad), p, timestamp)
  }

  /** `struct NAME {` when the configuration names the struct. */
  function StructHeader(config: BaseConfig): string
  {
    if config.name != "" then "struct " + config.name + " {\n" else ""
  }

  /** The closing brace when the configuration names the struct. */
  function StructClose(config: BaseConfig, pad: string): string
  {
    if config.name != "" then pad + "}" + "\n" else ""
  }

  /** A struct whose children are all fields: header, field lines, closing brace, blank line. */
  function StructText(config: BaseConfig, fields: string, pad: string): string
  {
    StructHeader(config) + fields + StructClose(config, pad) + "\n"
  }

  lemma {:induction false} RecordNamesMono(n: Node, i: nat, j: nat)
    requires i <= j <= |n.children|
    ensures RecordNames(n, i) <= RecordNames(n, j)
    decreases j
  {
    if i < j {
      RecordNamesMono(n, i, j - 1);
    }
  }

  /** The buffers after a struct whose children are all fields has been emitted. */
  function StructWritten(ws: map<string, string>, config: BaseConfig, c: Node, pad: string,
                         u: Utility, p: ConversionParameters, timestamp: string): map<string, string>
  {
    ws[config.source := Buffer(ws, config.source, p, timestamp) + StructText(config, FieldsText(c, |c.children|, u, pad), pad)]
  }

  /** A type nothing is asked of. */
  const NoTypeInfo: TypeInfo := TypeInfo(false, false, false, false, "", "", 0)

  /** A declaration cursor outside system headers with the given children. */
  function Decl(kind: Kind, spelling: string, children: seq<Node>): Node
  {
    Node(kind, spelling, NoTypeInfo, NoBinOp, NoUnOp, "", [], "", false, "", NoTypeInfo, [], children)
  }

  /**
   * What struct emission writes: `_writers`, `_visitedStructs`, `_currentSource`,
   * `_currentStructConfig`, and whether an exception was raised. (Translating a field for
   * its type also runs the translator, whose switch state is not tracked here.)
   */
  datatype Emission = Emission(writers: map<string, string>, visited: set<string>, source: string, config: BaseConfig,
                               failed: bool)

  /** What struct emission reads and never writes: the struct registry, the translator's context, the writer settings and the indentation. */
  datatype StructSetting = StructSetting(infos: map<string, StructInfo>, env: Env, p: ConversionParameters, timestamp: string,
                                         pad: string)

  /** Struct emission over the first `hi` children of `n` (163-256); an exception stops it. */
  function EmitStructs(n: Node, hi: nat, e: StructSetting, s: Emission): Emission
    requires hi <= |n.children|
    decreases n, 0, hi
  {
    if hi == 0 then s
    else
      var m := EmitStructs(n, hi - 1, e, s);
      if m.failed then m else EmitStructsAt(n.children[hi - 1], e, m)
  }

  /** The emission visitor at one cursor: records are emitted, fields written, anything else entered. */
  function EmitStructsAt(c: Node, e: StructSetting, s: Emission): Emission
    decreases c, 2
  {
    if c.inSystemHeader then s
    else if IsRecord(c) then EmitRecord(c, e, s)
    else if c.kind == FieldDecl then EmitField(c, e, s)
    else EmitStructs(c, |c.children|, e, s)
  }

  /**
   * What struct emission translates below the children of `n`: every field the walk can
   * reach, records included whether or not they turn out to be emitted.
   */
  predicate StructsOk(n: Node)
    decreases n, 0
  {
    forall i :: 0 <= i < |n.children| ==> StructsOkAt(n.children[i])
  }

  predicate StructsOkAt(c: Node)
    decreases c, 1
  {
    c.inSystemHeader || (if c.kind == FieldDecl then WellFormed(c) else StructsOk(c))
  }

  /**
   * A record with children and not yet emitted is looked up (a missing entry raises); a
   * configuration without output only becomes the current one; otherwise it is emitted.
   */
  function EmitRecord(c: Node, e: StructSetting, s: Emission): Emission
    decreases c, 1
  {
    var name := StructName(c);
    if name in s.visited || |c.children| == 0 then s
    else if name !in e.infos then s.(failed := true)
    else
      var config := e.infos[name].config;
      if config.source == "" then s.(config := config)
      else EmitOpened(c, e, s.(source := config.source, config := config))
  }

  /** An emitted record: headed, entered, closed by the configuration then in force, and marked. */
  function EmitOpened(c: Node, e: StructSetting, s: Emission): Emission
    decreases c, 0, |c.children| + 1
  {
    var headed := s.(writers := Written(s.writers, s.source, StructHeader(s.config), e.p, e.timestamp));
    var inner := EmitStructs(c, |c.children|, e, headed);
    if inner.failed then inner
    else if inner.source == "" then inner.(failed := true)
    else inner.(writers := Written(inner.writers, inner.source, StructClose(inner.config, e.pad) + "\n", e.p, e.timestamp),
                visited := inner.visited + {StructName(c)})
  }

  /** A field: its line written to the current output; no output raises. */
  function EmitField(c: Node, e: StructSetting, s: Emission): Emission
  {
    if s.source == "" then s.(failed := true)
    else s.(writers := s.writers[s.source := Buffer(s.writers, s.source, e.p, e.timestamp) + (e.pad + FieldLine(e.env.util, c) + "\n")])
  }

  /** An exception ends the pass: nothing after it changes the state. */
  lemma {:induction false} EmitStructsStops(n: Node, i: nat, j: nat, e: StructSetting, s: Emission, m: Emission)
    requires i <= j <= |n.children| && EmitStructs(n, i, e, s) == m && m.failed
    ensures EmitStructs(n, j, e, s) == m
    decreases j
  {
    if i < j {
      EmitStructsStops(n, i, j - 1, e, s, m);
      EmitStructsFailedStep(n, j, e, s, m);
    }
  }

  lemma EmitStructsFailedStep(n: Node, j: nat, e: StructSetting, s: Emission, m: Emission)
    requires 0 < j <= |n.children| && EmitStructs(n, j - 1, e, s) == m && m.failed
    ensures EmitStructs(n, j, e, s) == m
  {
  }

  /** Writing keeps every buffer headed and only grows the one written. */
  lemma WrittenKeepsBuffers(ws: map<string, string>, source: string, t: string, p: ConversionParameters, timestamp: string)
    requires BuffersOpened(ws, p, timestamp)
    ensures BuffersOpened(Written(ws, source, t, p, timestamp), p, timestamp) && Grown(ws, Written(ws, source, t, p, timestamp))
  {
    if t == "" {
      GrownRefl(ws);
    } else {
      AppendKeepsBuffers(ws, source, t, p, timestamp);
    }
  }

  lemma GrownRefl(ws: map<string, string>)
    ensures Grown(ws, ws)
  {
    forall k | k in ws
      ensures StartsWith(ws[k], ws[k])
    {
      assert ws[k][..|ws[k]|] == ws[k];
    }
  }

  /**
   * From `s` to `r`: every buffer stays headed, buffers only grow, and the records newly
   * marked as emitted are among `names`.
   */
  ghost predicate Advanced(s: Emission, r: Emission, e: StructSetting, names: set<string>)
  {
    BuffersOpened(r.writers, e.p, e.timestamp) && Grown(s.writers, r.writers)
    && s.visited <= r.visited && r.visited <= s.visited + names
  }

  lemma AdvancedRefl(s: Emission, e: StructSetting, names: set<string>)
    requires BuffersOpened(s.writers, e.p, e.timestamp)
    ensures Advanced(s, s, e, names)
  {
    GrownRefl(s.writers);
  }

  lemma AdvancedTrans(s: Emission, m: Emission, r: Emission, e: StructSetting, a: set<string>, b: set<string>, c: set<string>)
    requires Advanced(s, m, e, a) && Advanced(m, r, e, b) && a + b <= c
    ensures Advanced(s, r, e, c)
  {
    GrownTrans(s.writers, m.writers, r.writers);
  }

  /** Writing to the current output, nothing else changed, is an advance. */
  lemma AdvancedByWrite(s: Emission, r: Emission, e: StructSetting, t: string, names: set<string>)
    requires BuffersOpened(s.writers, e.p, e.timestamp)
    requires r == s.(writers := Written(s.writers, s.source, t, e.p, e.timestamp))
    ensures Advanced(s, r, e, names)
  {
    WrittenKeepsBuffers(s.writers, s.source, t, e.p, e.timestamp);
  }

  /**
   * Struct emission keeps every buffer headed, only grows buffers, and marks as emitted
   * only records it reaches.
   */
  lemma {:induction false} EmitStructsGrows(n: Node, hi: nat, e: StructSetting, s: Emission)
    requires hi <= |n.children| && BuffersOpened(s.writers, e.p, e.timestamp)
    ensures Advanced(s, EmitStructs(n, hi, e, s), e, RecordNames(n, hi))
    decreases n, 0, hi
  {
    if hi == 0 {
      AdvancedRefl(s, e, {});
    } else {
      var c := n.children[hi - 1];
      var m := EmitStructs(n, hi - 1, e, s);
      EmitStructsGrows(n, hi - 1, e, s);
      if m.failed {
        AdvancedRefl(m, e, {});
        AdvancedTrans(s, m, m, e, RecordNames(n, hi - 1), {}, RecordNames(n, hi));
      } else {
        EmitStructsAtGrows(c, e, m);
        AdvancedTrans(s, m, EmitStructsAt(c, e, m), e, RecordNames(n, hi - 1), RecordNamesAt(c), RecordNames(n, hi));
      }
    }
  }

  lemma {:induction false} EmitStructsAtGrows(c: Node, e: StructSetting, s: Emission)
    requires BuffersOpened(s.writers, e.p, e.timestamp)
    ensures Advanced(s, EmitStructsAt(c, e, s), e, RecordNamesAt(c))
    decreases c, 2
  {
    if c.inSystemHeader {
      AdvancedRefl(s, e, {});
    } else if IsRecord(c) {
      EmitRecordGrows(c, e, s);
    } else if c.kind == FieldDecl {
      if s.source == "" {
        AdvancedRefl(s, e, {});
      } else {
        AdvancedByWrite(s, EmitField(c, e, s), e, e.pad + FieldLine(e.env.util, c) + "\n", {});
      }
    } else {
      EmitStructsGrows(c, |c.children|, e, s);
    }
  }

  lemma {:induction false} EmitRecordGrows(c: Node, e: StructSetting, s: Emission)
    requires BuffersOpened(s.writers, e.p, e.timestamp)
    ensures Advanced(s, EmitRecord(c, e, s), e, {StructName(c)} + RecordNames(c, |c.children|))
    decreases c, 1
  {
    var name := StructName(c);
    if name in s.visited || |c.children| == 0 || name !in e.infos || e.infos[name].config.source == "" {
      AdvancedRefl(s, e, {});
    } else {
      var config := e.infos[name].config;
      var s1 := s.(source := config.source, config := config);
      AdvancedRefl(s, e, {});
      assert Advanced(s, s1, e, {});
      EmitOpenedGrows(c, e, s1);
      AdvancedTrans(s, s1, EmitOpened(c, e, s1), e, {}, {StructName(c)} + RecordNames(c, |c.children|),
                    {StructName(c)} + RecordNames(c, |c.children|));
    }
  }

  lemma {:induction false} EmitOpenedGrows(c: Node, e: StructSetting, s: Emission)
    requires BuffersOpened(s.writers, e.p, e.timestamp)
    ensures Advanced(s, EmitOpened(c, e, s), e, {StructName(c)} + RecordNames(c, |c.children|))
    decreases c, 0, |c.children| + 1
  {
    var names := {StructName(c)} + RecordNames(c, |c.children|);
    var headed := s.(writers := Written(s.writers, s.source, StructHeader(s.config), e.p, e.timestamp));
    AdvancedByWrite(s, headed, e, StructHeader(s.config), {});
    var inner := EmitStructs(c, |c.children|, e, headed);
    EmitStructsGrows(c, |c.children|, e, headed);
    AdvancedTrans(s, headed, inner, e, {}, RecordNames(c, |c.children|), names);
    if inner.failed {
      assert EmitOpened(c, e, s) == inner;
    } else if inner.source == "" {
      assert EmitOpened(c, e, s) == inner.(failed := true);
    } else {
      var t := StructClose(inner.config, e.pad) + "\n";
      var closed := inner.(writers := Written(inner.writers, inner.source, t, e.p, e.timestamp));
      AdvancedByWrite(inner, closed, e, t, {});
      AdvancedTrans(s, inner, closed, e, names, {}, names);
      var r := closed.(visited := closed.visited + {StructName(c)});
      assert EmitOpened(c, e, s) == r;
    }
  }

  /** Fields outside any record write their lines, in order, to the current output. */
  lemma {:induction false} FieldsEmitted(n: Node, k: nat, e: StructSetting, s: Emission)
    requires k <= |n.children| && FieldsUpTo(n, k) && s.source != "" && !s.failed
    ensures var r := EmitStructs(n, k, e, s);
            && !r.failed && r.visited == s.visited && r.source == s.source && r.config == s.config
            && r.writers == FieldsWritten(s.writers, s.source, n, k, e.pad, e.env.util, e.p, e.timestamp)
    decreases k
  {
    if k > 0 {
      FieldsEmitted(n, k - 1, e, s);
      var m := EmitStructs(n, k - 1, e, s);
      var line := e.pad + FieldLine(e.env.util, n.children[k - 1]) + "\n";
      WrittenTwice(s.writers, s.source, FieldsText(n, k - 1, e.env.util, e.pad), line, e.p, e.timestamp);
    }
  }

  /**
   * A record whose children are all fields, met for the first time with a configuration
   * that has an output, is written there as `struct NAME {`, one `name: type,` line per
   * field, `}` and a blank line (the header and the brace only when the configuration
   * names the struct), and is marked as emitted.
   */
  lemma FlatStructText(c: Node, e: StructSetting, s: Emission)
    requires IsRecord(c) && FieldsOnly(c) && |c.children| > 0 && !s.failed
    requires StructName(c) !in s.visited && StructName(c) in e.infos && e.infos[StructName(c)].config.source != ""
    ensures var config := e.infos[StructName(c)].config;
            var r := EmitRecord(c, e, s);
            && !r.failed && r.visited == s.visited + {StructName(c)}
            && r.source == config.source && r.config == config
            && r.writers == StructWritten(s.writers, config, c, e.pad, e.env.util, e.p, e.timestamp)
  {
    var config := e.infos[StructName(c)].config;
    var s1 := s.(source := config.source, config := config);
    var headed := s1.(writers := Written(s1.writers, s1.source, StructHeader(config), e.p, e.timestamp));
    FieldsEmitted(c, |c.children|, e, headed);
    var inner := EmitStructs(c, |c.children|, e, headed);
    StructSteps(s.writers, headed.writers, inner.writers,
                Written(inner.writers, inner.source, StructClose(inner.config, e.pad) + "\n", e.p, e.timestamp),
                config, c, e.pad, e.env.util, e.p, e.timestamp);
  }

  /** A record is emitted at most once: emitting it again after a run that raised nothing changes nothing. */
  lemma RecordEmittedOnce(c: Node, e: StructSetting, s: Emission)
    requires !EmitRecord(c, e, s).failed
    ensures EmitRecord(c, e, EmitRecord(c, e, s)) == EmitRecord(c, e, s)
  {
    var name := StructName(c);
    if name !in s.visited && |c.children| > 0 && name in e.infos && e.infos[name].config.source != "" {
      assert name in EmitRecord(c, e, s).visited;
    }
  }

  /** Two writes to one buffer are one write of both. */
  lemma WrittenTwice(ws: map<string, string>, source: string, s: string, t: string, p: ConversionParameters, timestamp: string)
    ensures Written(Written(ws, source, s, p, timestamp), source, t, p, timestamp) == Written(ws, source, s + t, p, timestamp)
  {
    if s == "" {
      assert s + t == t;
    } else if t == "" {
      assert s + t == s;
    } else {
      var b := Buffer(ws, source, p, timestamp);
      assert b + s + t == b + (s + t);
    }
  }

  /** Header, fields, closing brace and blank line make the struct's text. */
  lemma StructSteps(w0: map<string, string>, w1: map<string, string>, w2: map<string, string>, w3: map<string, string>,
                    config: BaseConfig, c: Node, pad: string, u: Utility, p: ConversionParameters, timestamp: string)
    requires w1 == Written(w0, config.source, StructHeader(config), p, timestamp)
    requires w2 == FieldsWritten(w1, config.source, c, |c.children|, pad, u, p, timestamp)
    requires w3 == Written(w2, config.source, StructClose(config, pad) + "\n", p, timestamp)
    ensures w3 == StructWritten(w0, config, c, pad, u, p, timestamp)
  {
    var fields := FieldsText(c, |c.children|, u, pad);
    var h := StructHeader(config);
    var cl := StructClose(config, pad) + "\n";
    WrittenTwice(w0, config.source, h, fields, p, timestamp);
    WrittenTwice(w0, config.source, h + fields, cl, p, timestamp);
    StructTextParts(config, fields, pad);
  }

  lemma StructTextParts(config: BaseConfig, fields: string, pad: string)
    ensures StructHeader(config) + fields + (StructClose(config, pad) + "\n") == StructText(config, fields, pad) != ""
  {
  }

  /**
   * A record declared inside another one is never registered (preprocessing does not
   * enter records), yet emission enters the outer record and looks the inner one up, which
   * raises: `struct A { struct B { int x; } b; };` stops the struct pass when `A` has an output.
   */
  lemma NestedRecordFails(source: string -> BaseConfig, env: Env, p: ConversionParameters, timestamp: string, pad: string,
                          s: Emission)
    requires source("A").source != "" && s.visited == {} && !s.failed
    ensures
      var tu := Decl(OtherKind("TranslationUnit"), "", [Decl(StructDecl, "A", [Decl(StructDecl, "B", [Decl(FieldDecl, "x", [])])])]);
      var infos := PreprocessStructs(map[], {}, tu, 1, source);
      && "A" in infos && "B" !in infos && "B" in RecordNames(tu, 1)
      && EmitStructs(tu, 1, StructSetting(infos, env, p, timestamp, pad), s).failed
  {
    var x := Decl(FieldDecl, "x", []);
    var b := Decl(StructDecl, "B", [x]);
    var a := Decl(StructDecl, "A", [b]);
    var tu := Decl(OtherKind("TranslationUnit"), "", [a]);
    NestedRecordNamed(tu, a, b);
    var infos := PreprocessStructs(map[], {}, tu, 1, source);
    OneRecordRegistered(tu, a, source);
    var e := StructSetting(infos, env, p, timestamp, pad);
    EmittedInnerFails(a, b, source("A"), e, s);
    assert EmitStructs(tu, 1, e, s) == EmitStructsAt(a, e, s);
  }

  lemma NestedRecordNamed(tu: Node, a: Node, b: Node)
    requires b == Decl(StructDecl, "B", [Decl(FieldDecl, "x", [])]) && a == Decl(StructDecl, "A", [b])
    requires tu == Decl(OtherKind("TranslationUnit"), "", [a])
    ensures "B" in RecordNames(tu, 1)
  {
    assert RecordNamesAt(b) == {"B"} + RecordNames(b, 1);
    assert RecordNames(a, 1) == RecordNames(a, 0) + RecordNamesAt(b);
    assert RecordNames(tu, 1) == RecordNames(tu, 0) + RecordNamesAt(a);
  }

  lemma OneRecordRegistered(tu: Node, a: Node, source: string -> BaseConfig)
    requires |tu.children| == 1 && tu.children[0] == a && IsRecord(a) && !a.inSystemHeader && a.spelling == "A"
    ensures PreprocessStructs(map[], {}, tu, 1, source) == map["A" := StructInfo("A", source("A"))]
  {
    assert PreprocessStructs(map[], {}, tu, 1, source) == PreprocessStructsAt(map[], {}, a, source);
  }

  lemma EmittedInnerFails(a: Node, b: Node, config: BaseConfig, e: StructSetting, s: Emission)
    requires b == Decl(StructDecl, "B", [Decl(FieldDecl, "x", [])]) && a == Decl(StructDecl, "A", [b])
    requires e.infos == map["A" := StructInfo("A", config)]
    requires config.source != "" && s.visited == {} && !s.failed
    ensures EmitRecord(a, e, s).failed
  {
    var s1 := s.(source := config.source, config := config);
    var headed := s1.(writers := Written(s1.writers, s1.source, StructHeader(config), e.p, e.timestamp));
    assert EmitRecord(b, e, headed).failed;
    assert EmitStructs(a, 1, e, headed) == EmitStructsAt(b, e, EmitStructs(a, 0, e, headed));
    assert EmitRecord(a, e, s) == EmitOpened(a, e, s1);
  }

  // ---------------------------------------------------------------------------
  // Functions (378-446, 1377-1509)
  // ---------------------------------------------------------------------------

  /** `FindChild(CompoundStmt)`: the first child that is a block. */
  function FindBody(n: Node): (r: Option<Node>)
    ensures r.Some? ==> r.value in n.children && r.value.kind == CompoundStmt
    ensures r.None? ==> forall i :: 0 <= i < |n.children| ==> n.children[i].kind != CompoundStmt
  {
    FindBodyFrom(n.children)
  }

  function FindBodyFrom(cs: seq<Node>): (r: Option<Node>)
    ensures r.Some? ==> r.value in cs && r.value.kind == CompoundStmt
    ensures r.None? ==> forall i :: 0 <= i < |cs| ==> cs[i].kind != CompoundStmt
  {
    if cs == [] then None
    else if cs[0].kind == CompoundStmt then Some(cs[0])
    else FindBodyFrom(cs[1..])
  }

  /** A function definition: a function declaration with a body. */
  predicate IsDefinition(n: Node)
  {
    n.kind == FunctionDecl && FindBody(n).Some?
  }

  /** `type name` for each parameter, as the signature lists them. */
  function ParamDecls(ps: seq<Param>, u: Utility): (r: seq<string>)
    ensures |r| == |ps|
    ensures forall i :: 0 <= i < |ps| ==> r[i] == ps[i].typeName + " " + u.fixSpecialWords(ps[i].spelling)
  {
    if ps == [] then [] else ParamDecls(ps[..|ps| - 1], u) + [ps[|ps| - 1].typeName + " " + u.fixSpecialWords(ps[|ps| - 1].spelling)]
  }

  /** `name:type` for each parameter, as the header lists them. */
  function Arguments(ps: seq<Param>, u: Utility): (r: seq<string>)
    ensures |r| == |ps|
    ensures forall i :: 0 <= i < |ps| ==> r[i] == u.fixSpecialWords(ps[i].spelling) + ":" + ps[i].typeName
  {
    if ps == [] then [] else Arguments(ps[..|ps| - 1], u) + [u.fixSpecialWords(ps[|ps| - 1].spelling) + ":" + ps[|ps| - 1].typeName]
  }

  lemma ArgumentsSnoc(ps: seq<Param>, i: nat, u: Utility)
    requires i < |ps|
    ensures Arguments(ps[..i + 1], u) == Arguments(ps[..i], u) + [u.fixSpecialWords(ps[i].spelling) + ":" + ps[i].typeName]
  {
    assert ps[..i + 1][..i] == ps[..i];
  }

  /** The recorded signature: the parameter declarations separated by `, `. */
  function Signature(ps: seq<Param>, u: Utility): string
  {
    Join(", ", ParamDecls(ps, u))
  }

  /** The configuration a definition gets: the policy's answer, or its own name and no output. */
  function FunctionConfig(p: ConversionParameters, name: string, signature: string): BaseConfig
  {
    if p.functionSource.None? then BaseConfig(name, "")
    else p.functionSource.value(FunctionInfo(name, signature, NoConfig))
  }

  /** The registry entry of a definition. */
  function FunctionEntry(n: Node, p: ConversionParameters, u: Utility): (r: FunctionInfo)
    ensures r.name == n.spelling
  {
    var sig := Signature(n.params, u);
    FunctionInfo(n.spelling, sig, FunctionConfig(p, n.spelling, sig))
  }

  /**
   * Function preprocessing over the first `hi` children of `n` (378-407): system-header
   * subtrees are skipped, a declaration without body is not entered, a definition is
   * registered and then entered, anything else is entered.
   */
  function PreprocessFunctions(t: FunctionTable, n: Node, hi: nat, p: ConversionParameters, u: Utility): (r: FunctionTable)
    requires t.Valid() && hi <= |n.children|
    ensures r.Valid()
    decreases n, 0, hi
  {
    if hi == 0 then t
    else PreprocessFunctionsAt(PreprocessFunctions(t, n, hi - 1, p, u), n.children[hi - 1], p, u)
  }

  /** Function preprocessing at one cursor. */
  function PreprocessFunctionsAt(t: FunctionTable, c: Node, p: ConversionParameters, u: Utility): (r: FunctionTable)
    requires t.Valid()
    ensures r.Valid()
    decreases c, 1
  {
    if c.inSystemHeader then t
    else if c.kind == FunctionDecl then
      if FindBody(c).None? then t
      else PreprocessFunctions(t.Put(c.spelling, FunctionEntry(c, p, u)), c, |c.children|, p, u)
    else PreprocessFunctions(t, c, |c.children|, p, u)
  }

  /** The names of the definitions the function passes reach below the first `hi` children of `n`. */
  function DefinitionsReached(n: Node, hi: nat): set<string>
    requires hi <= |n.children|
    decreases n, 0, hi
  {
    if hi == 0 then {} else DefinitionsReached(n, hi - 1) + DefinitionsReachedAt(n.children[hi - 1])
  }

  /** The names of the definitions the function passes reach from the cursor `c`. */
  function DefinitionsReachedAt(c: Node): set<string>
    decreases c, 1
  {
    if c.inSystemHeader then {}
    else if c.kind == FunctionDecl then
      if FindBody(c).None? then {} else {c.spelling} + DefinitionsReached(c, |c.children|)
    else DefinitionsReached(c, |c.children|)
  }

  /** What function emission translates below the children of `n`: the body of every definition it can reach. */
  predicate FunctionsOk(n: Node)
    decreases n, 0
  {
    forall i :: 0 <= i < |n.children| ==> FunctionsOkAt(n.children[i])
  }

  predicate FunctionsOkAt(c: Node)
    decreases c, 1
  {
    c.inSystemHeader
    || ((c.kind == FunctionDecl && FindBody(c).Some? ==> WellFormed(FindBody(c).value)) && FunctionsOk(c))
  }

  /**
   * The registry is complete before any body is generated: every definition the
   * emission pass will meet is registered, and nothing else is added.
   */
  lemma {:induction false} FunctionRegistryComplete(t: FunctionTable, n: Node, hi: nat, p: ConversionParameters, u: Utility)
    requires t.Valid() && hi <= |n.children|
    ensures forall k :: k in PreprocessFunctions(t, n, hi, p, u).infos <==> k in t.infos || k in DefinitionsReached(n, hi)
    decreases n, 0, hi
  {
    if hi > 0 {
      var m := PreprocessFunctions(t, n, hi - 1, p, u);
      FunctionRegistryComplete(t, n, hi - 1, p, u);
      FunctionRegistryCompleteAt(m, n.children[hi - 1], p, u);
    }
  }

  /** The same at one cursor. */
  lemma {:induction false} FunctionRegistryCompleteAt(t: FunctionTable, c: Node, p: ConversionParameters, u: Utility)
    requires t.Valid()
    ensures forall k :: k in PreprocessFunctionsAt(t, c, p, u).infos <==> k in t.infos || k in DefinitionsReachedAt(c)
    decreases c, 1
  {
    if !c.inSystemHeader {
      if c.kind == FunctionDecl {
        if FindBody(c).Some? {
          var t' := t.Put(c.spelling, FunctionEntry(c, p, u));
          assert forall k :: k in t'.infos <==> k in t.infos || k == c.spelling;
          FunctionRegistryComplete(t', c, |c.children|, p, u);
        }
      } else {
        FunctionRegistryComplete(t, c, |c.children|, p, u);
      }
    }
  }

  /** The definitions reached below a child that the pass enters are reached from its parent. */
  lemma {:induction false} DefinitionsReachedMono(n: Node, i: nat, j: nat)
    requires i <= j <= |n.children|
    ensures DefinitionsReached(n, i) <= DefinitionsReached(n, j)
    decreases j
  {
    if i < j {
      DefinitionsReachedMono(n, i, j - 1);
    }
  }

  /** The header `unsafe fn name(a:T, ...) -> R {` (1430-1474), indented by `pad`. */
  function HeaderText(name: string, args: seq<string>, returnType: TypeInfo, pad: string): string
  {
    pad + "unsafe fn " + name + "(" + Join(", ", args) + ")"
    + (if !returnType.isVoid then " -> " + returnType.rustType + " " else "")
    + pad + "{\n"
  }

  /** The header as written: the opening up to `(`, the joined arguments, then the rest. */
  lemma HeaderTextParts(name: string, args: seq<string>, returnType: TypeInfo, pad: string)
    ensures HeaderText(name, args, returnType, pad)
         == (pad + "unsafe fn " + name + "(") + Join(", ", args)
            + (")" + (if !returnType.isVoid then " -> " + returnType.rustType + " " else "") + pad + "{\n")
  {
    var t := if !returnType.isVoid then " -> " + returnType.rustType + " " else "";
    assert (pad + "unsafe fn " + name + "(") + Join(", ", args) + (")" + t + pad + "{\n")
        == pad + "unsafe fn " + name + "(" + Join(", ", args) + ")" + t + pad + "{\n";
  }

  /** The statements of a function body (1365-1375): each non-empty one finished, on its own line. */
  function BodyText(body: Node, k: nat, env: Env, sw: SwitchState, pad: string): (r: Out)
    requires WellFormed(body) && k <= |body.children|
  {
    if k == 0 then Out("", sw)
    else
      var p := BodyText(body, k - 1, env, sw, pad);
      var o := Tr(body.children[k - 1], env, p.sw);
      Out(p.text + (if o.text != "" then pad + env.util.ensureStatementFinished(o.text) + "\n" else ""), o.sw)
  }

  // ---------------------------------------------------------------------------
  // What a run translates
  // ---------------------------------------------------------------------------

  /** Each pass can translate what it hands to the translator. */
  predicate UnitOk(tu: Node)
  {
    EnumsOk(tu) && GlobalsOk(tu) && StructsOk(tu) && FunctionsOk(tu)
  }

  /** The passes ask no more of a unit than the translator asks of a node. */
  lemma WellFormedUnitOk(tu: Node)
    requires WellFormed(tu)
    ensures UnitOk(tu)
  {
    forall i | 0 <= i < |tu.children|
      ensures EnumOk(tu.children[i])
    {
      WellFormedEnumOk(tu.children[i]);
    }
    WellFormedStructsOk(tu);
    WellFormedFunctionsOk(tu);
  }

  lemma WellFormedEnumOk(e: Node)
    requires WellFormed(e)
    ensures EnumOk(e)
  {
    forall k | 0 <= k < |e.children|
      ensures EnumeratorOk(e.children[k])
    {
      assert WellFormed(e.children[k]);
    }
  }

  lemma {:induction false} WellFormedStructsOk(n: Node)
    requires WellFormed(n)
    ensures StructsOk(n)
  {
    forall i | 0 <= i < |n.children|
      ensures StructsOkAt(n.children[i])
    {
      WellFormedStructsOk(n.children[i]);
    }
  }

  lemma {:induction false} WellFormedFunctionsOk(n: Node)
    requires WellFormed(n)
    ensures FunctionsOk(n)
  {
    forall i | 0 <= i < |n.children|
      ensures FunctionsOkAt(n.children[i])
    {
      WellFormedFunctionsOk(n.children[i]);
    }
  }

  /**
   * `enum E { A };`: an enumerator without an initializer is numbered by the counter, so
   * a unit holding one is accepted by every pass, although the translator itself cannot
   * take the enumerator on its own.
   */
  lemma ImplicitEnumeratorAccepted()
    ensures var e := Decl(EnumDecl, "E", [Decl(EnumConstantDecl, "A", [])]);
            UnitOk(Decl(OtherKind("TranslationUnit"), "", [e])) && !WellFormed(e.children[0])
  {
    var a := Decl(EnumConstantDecl, "A", []);
    var e := Decl(EnumDecl, "E", [a]);
    assert EnumOk(e);
    assert StructsOkAt(a) && StructsOkAt(e);
    assert FunctionsOkAt(a) && FunctionsOkAt(e);
  }
}
