/** `PojoToCsvSerializer`: `writeContent`, the header phase of
    `writeHeaders(obj)` and `serialize`, each returning the text it writes
    and the registry cache after it. An exception that escapes is an `Err`. */
module Writer {
  import opened Wrappers
  import opened Text
  import opened Classes
  import opened Mappings
  import opened MapperConfig
  import opened Getters
  import opened Quoting
  import opened HeaderWriter
  import opened Values

  /** The serializer's settings: the class universe, the registry
      configuration, Excel mode, the platform line separator and the depth
      bound of a resolution. */
  datatype Env = Env(u: Universe, cfg: Config, excel: bool, newline: string, fuel: nat)

  /** Text written and the cache after writing it. */
  datatype Out = Out(text: string, cache: Cache)

  /** The texts of the items of a container, one per item. */
  datatype Items = Items(texts: seq<string>, cache: Cache)

  /** What one spec of a decomposed object wrote: the values of its getters,
      whether it has more than one getter, whether a getter threw (the text
      then stops there), and the quote flag its values were written with.
      `quoted` is a record kept by `ObjectCells` alongside the text, so
      `QuoteFlow` and `QuoteRestored` speak about this record. */
  datatype Cell = Cell(text: string, multi: bool, failed: bool, quoted: bool)

  datatype Cells = Cells(cells: seq<Cell>, cache: Cache)

  datatype Piece = Piece(text: string, failed: bool, cache: Cache)

  const Separator: string := ","
  const SpacedSeparator: string := ", "

  /** `n` separators. */
  function Commas(n: nat): (r: string)
    ensures |r| == n && forall k :: 0 <= k < n ==> r[k] == ','
  {
    if n == 0 then "" else "," + Commas(n - 1)
  }

  /** Lines 208-218: a null value leaves its columns empty: one separator
      fewer than the specs of its mapping. A null mapping throws. */
  function NullFill(mapping: Option<Mapping>): (r: Result<string>)
    ensures r.Err? <==> mapping.None?
    ensures r.Err? ==> r.error == NullPointer
    ensures r.Ok? ==> |r.value| == (if |mapping.value.attrs| == 0 then 0 else |mapping.value.attrs| - 1)
    ensures r.Ok? ==> forall k :: 0 <= k < |r.value| ==> r.value[k] == ','
  {
    match mapping
    case None => Err(NullPointer)
    case Some(m) => Ok(if |m.attrs| == 0 then "" else Commas(|m.attrs| - 1))
  }

  /** Lines 249-258: a string, number or boolean. Quoted strings go through
      `writeQuoted`, quoted numbers and booleans through `write`. */
  function ScalarOut(excel: bool, v: Value, quote: bool): (r: string)
    requires v.Str? || v.Num? || v.Bool?
    ensures !quote ==> r == ScalarText(v)
    ensures quote && v.Str? ==> ReadField(r) == Some(v.s)
    ensures quote && !v.Str? && (excel || |ScalarText(v)| == 0 || ScalarText(v)[0] != '=') ==> ReadField(r) == Some(ScalarText(v))
    // a quoted string gets the Excel `=` unless it has a comma
    ensures quote && v.Str? ==> |r| >= 2 && (r[0] == '=' <==> excel && ',' !in v.s)
    // a quoted number or boolean gets the `=` whenever Excel mode is on, and
    // is otherwise raw unless it holds a double quote
    ensures quote && !v.Str? && excel ==> |r| >= 2 && r[0] == '='
    ensures quote && !v.Str? && !excel && '"' !in ScalarText(v) ==> r == ScalarText(v)
    ensures quote && !v.Str? && !excel && '"' in ScalarText(v) ==> r == WriteQuoted(false, Some(ScalarText(v)))
  {
    if quote then
      if v.Str? then
        WriteQuotedReadsBack(excel, v.s);
        WriteQuoted(excel, Some(v.s))
      else
        WriteReadsBack(excel, ScalarText(v));
        Write(excel, Some(ScalarText(v)))
    else WriteRaw(Some(ScalarText(v)))
  }

  /** Lines 262-267: an object written as its `toString`. */
  function TextOut(excel: bool, text: string, quote: bool): (r: string)
    ensures quote ==> ReadField(r) == Some(text)
    ensures quote ==> |r| >= 2 && r[|r| - 1] == '"' && (r[0] == '=' <==> excel && ',' !in text)
    ensures !quote ==> r == text
  {
    WriteQuotedReadsBack(excel, text);
    if quote then WriteQuoted(excel, Some(text)) else WriteRaw(Some(text))
  }

  /** Lines 227-242 as a loop: each item preceded by `div`, which becomes
      `", "` after the first. */
  function Interleave(texts: seq<string>, div: string): string
  {
    if texts == [] then "" else div + texts[0] + Interleave(texts[1..], SpacedSeparator)
  }

  /** Lines 244-247 as a loop: each row followed by the line separator. */
  function RowLines(texts: seq<string>, newline: string): string
  {
    if texts == [] then "" else texts[0] + newline + RowLines(texts[1..], newline)
  }

  /** `text` in one pair of quotes when `quote`. */
  function Wrap(quote: bool, text: string): string
  {
    if quote then Quote + text + Quote else text
  }

  /** Lines 269-297 as a loop over the specs' cells: `div` before each cell,
      an opening quote for a multi-getter spec and a closing one when none
      of its getters threw; `div` becomes `,` only after a cell whose
      getters all returned. */
  function Assemble(cells: seq<Cell>, div: string): string
  {
    if cells == [] then ""
    else
      var c := cells[0];
      div + (if c.multi then Quote else "") + c.text + (if c.multi && !c.failed then Quote else "")
        + Assemble(cells[1..], if c.failed then div else Separator)
  }

  /** The quote flag as lines 281-295 carry it from spec to spec: a
      multi-getter spec writes unquoted; the flag is restored after it unless
      one of its getters threw, in which case it stays off. */
  predicate QuoteFlow(cells: seq<Cell>, quote: bool)
  {
    cells == [] ||
    (&& cells[0].quoted == (quote && !cells[0].multi)
     && QuoteFlow(cells[1..], if cells[0].failed && cells[0].multi then false else quote))
  }

  /** Until a multi-getter spec fails, every spec writes with the caller's
      quote flag (off inside a multi-getter spec); after one fails, no spec
      quotes. */
  lemma {:induction false} QuoteRestored(cells: seq<Cell>, quote: bool)
    requires QuoteFlow(cells, quote)
    ensures forall k :: 0 <= k < |cells| && (forall j :: 0 <= j < k ==> !(cells[j].failed && cells[j].multi)) ==>
              cells[k].quoted == (quote && !cells[k].multi)
    ensures forall j, k :: 0 <= j < k < |cells| && cells[j].failed && cells[j].multi ==> !cells[k].quoted
    decreases |cells|
  {
    if cells != [] {
      var c := cells[0];
      var next := if c.failed && c.multi then false else quote;
      QuoteRestored(cells[1..], next);
      QuoteOff(cells[1..]);
      forall k | 0 < k < |cells| && (forall j :: 0 <= j < k ==> !(cells[j].failed && cells[j].multi))
        ensures cells[k].quoted == (quote && !cells[k].multi)
      {
        assert cells[k] == cells[1..][k - 1];
        assert !(c.failed && c.multi) by { assert cells[0] == c; }
        forall j | 0 <= j < k - 1 ensures !(cells[1..][j].failed && cells[1..][j].multi) {
          assert cells[1..][j] == cells[j + 1];
        }
      }
      forall j, k | 0 <= j < k < |cells| && cells[j].failed && cells[j].multi
        ensures !cells[k].quoted
      {
        assert cells[k] == cells[1..][k - 1];
        if j > 0 {
          assert cells[j] == cells[1..][j - 1];
        }
      }
    }
  }

  /** With the flag off, nothing quotes. */
  lemma {:induction false} QuoteOff(cells: seq<Cell>)
    ensures QuoteFlow(cells, false) ==> forall k :: 0 <= k < |cells| ==> !cells[k].quoted
    decreases |cells|
  {
    if cells != [] {
      QuoteOff(cells[1..]);
      if QuoteFlow(cells, false) {
        forall k | 0 < k < |cells| ensures !cells[k].quoted {
          assert cells[k] == cells[1..][k - 1];
        }
      }
    }
  }

  /** `writeContent(obj, processCollections = rows, mapping, needQuotes = quote)`. */
  function Content(env: Env, cache: Cache, v: Value, rows: bool, mapping: Option<Mapping>, quote: bool): (r: Result<Out>)
    requires Valid(cache)
    ensures r.Ok? ==> Valid(r.value.cache) && Extends(cache, r.value.cache)
    ensures v.Null? ==> (r.Ok? <==> mapping.Some?) && (r.Ok? ==> r.value.cache == cache && NullFill(mapping) == Ok(r.value.text))
    ensures (v.Str? || v.Num? || v.Bool?) ==> r == Ok(Out(ScalarOut(env.excel, v, quote), cache))
    ensures v.Obj? && (mapping.None? || NeedsToString(env.u, env.cfg, v.objClass)) ==>
              r == Ok(Out(TextOut(env.excel, v.text, quote), cache))
    decreases v, 3, 0
  {
    match v
    case Null =>
      var t :- NullFill(mapping);
      Ok(Out(t, cache))
    case Str(_) => Ok(Out(ScalarOut(env.excel, v, quote), cache))
    case Num(_, _) => Ok(Out(ScalarOut(env.excel, v, quote), cache))
    case Bool(_) => Ok(Out(ScalarOut(env.excel, v, quote), cache))
    case Obj(cls, text, _) =>
      if mapping.None? || NeedsToString(env.u, env.cfg, cls) then Ok(Out(TextOut(env.excel, text, quote), cache))
      else
        var cs :- ObjectCells(env, cache, v, mapping.value, 0, quote);
        Ok(Out(Assemble(cs.cells, ""), cs.cache))
    case _ =>
      if rows then
        var rs :- Rows(env, cache, v, 0);
        Ok(Out(RowLines(rs.texts, env.newline), rs.cache))
      else
        var js :- Joined(env, cache, v, 0, mapping);
        InterleaveJoins(js.texts);
        Ok(Out(Wrap(quote, Interleave(js.texts, "")), js.cache))
  }

  /** Lines 240-247 and 227-239: a top-level container is written one row
      per item, a nested one as its items joined inside one field. */
  lemma ContainerContent(env: Env, cache: Cache, v: Value, rows: bool, mapping: Option<Mapping>, quote: bool)
    requires Valid(cache) && (v.Arr? || v.Coll?)
    ensures var r := Content(env, cache, v, rows, mapping, quote);
            rows ==>
              && (r.Ok? <==> Rows(env, cache, v, 0).Ok?)
              && (r.Ok? ==> r.value.text == RowLines(Rows(env, cache, v, 0).value.texts, env.newline))
    ensures var r := Content(env, cache, v, rows, mapping, quote);
            !rows ==>
              && (r.Ok? <==> Joined(env, cache, v, 0, mapping).Ok?)
              && (r.Ok? ==> r.value.text == Wrap(quote, Join(Joined(env, cache, v, 0, mapping).value.texts, SpacedSeparator)))
  {
    if !rows && Joined(env, cache, v, 0, mapping).Ok? {
      InterleaveJoins(Joined(env, cache, v, 0, mapping).value.texts);
    }
  }

  /** The `i`-th element of an array or item of an iterable. */
  function ElementAt(v: Value, i: nat): (r: Value)
    requires (v.Arr? || v.Coll?) && i < |Elements(v)|
    ensures r == Elements(v)[i]
  {
    if v.Arr? then v.elems[i] else v.items[i]
  }

  /** Lines 244-247 from item `i` on: each item is resolved by its own class
      (a null item throws) and written quoted as one row. */
  function Rows(env: Env, cache: Cache, v: Value, i: nat): (r: Result<Items>)
    requires (v.Arr? || v.Coll?) && Valid(cache) && i <= |Elements(v)|
    ensures r.Ok? ==> Valid(r.value.cache) && Extends(cache, r.value.cache)
    ensures r.Ok? ==> |r.value.texts| == |Elements(v)| - i
    decreases v, 2, |Elements(v)| - i
  {
    if i == |Elements(v)| then Ok(Items([], cache))
    else
      var item := if v.Arr? then v.elems[i] else v.items[i];
      match ClassOf(env.u, item)
      case None => Err(NullPointer)
      case Some(cls) =>
        var res :- Resolve(env.u, env.cfg, cache, cls, env.fuel);
        var o :- Content(env, res.cache, item, false, res.mapping, true);
        var rest :- Rows(env, o.cache, v, i + 1);
        Ok(Items([o.text] + rest.texts, rest.cache))
  }

  /** A null item among the rows of a top-level container throws: `getClass()`
      of null at line 245, before anything after it is written. */
  lemma NullRowThrows(env: Env, cache: Cache, v: Value, i: nat)
    requires (v.Arr? || v.Coll?) && Valid(cache) && i < |Elements(v)|
    requires Elements(v)[i].Null?
    ensures Rows(env, cache, v, i) == Err(NullPointer)
  {
    assert ElementAt(v, i).Null?;
  }

  /** Lines 232-239 from item `i` on: each item written unquoted, with the
      given mapping or, when there is none, the one of its own class (a
      null item then throws). */
  function Joined(env: Env, cache: Cache, v: Value, i: nat, mapping: Option<Mapping>): (r: Result<Items>)
    requires (v.Arr? || v.Coll?) && Valid(cache) && i <= |Elements(v)|
    ensures r.Ok? ==> Valid(r.value.cache) && Extends(cache, r.value.cache)
    ensures r.Ok? ==> |r.value.texts| == |Elements(v)| - i
    decreases v, 2, |Elements(v)| - i
  {
    if i == |Elements(v)| then Ok(Items([], cache))
    else
      var item := if v.Arr? then v.elems[i] else v.items[i];
      var res :- ItemMapping(env, cache, item, mapping);
      var o :- Content(env, res.cache, item, false, res.mapping, false);
      var rest :- Joined(env, o.cache, v, i + 1, mapping);
      Ok(Items([o.text] + rest.texts, rest.cache))
  }

  /** Lines 234-236: the mapping an item of a nested container is written with. */
  function ItemMapping(env: Env, cache: Cache, item: Value, mapping: Option<Mapping>): (r: Result<Resolved>)
    requires Valid(cache)
    ensures r.Ok? ==> Valid(r.value.cache) && Extends(cache, r.value.cache)
    ensures mapping.Some? ==> r == Ok(Resolved(mapping, cache))
    ensures mapping.None? && item.Null? ==> r == Err(NullPointer)
    ensures mapping.None? && !item.Null? ==> r == Resolve(env.u, env.cfg, cache, ClassOf(env.u, item).value, env.fuel)
  {
    match mapping
    case Some(_) => Ok(Resolved(mapping, cache))
    case None =>
      match ClassOf(env.u, item)
      case None => Err(NullPointer)
      case Some(cls) => Resolve(env.u, env.cfg, cache, cls, env.fuel)
  }

  /** Lines 271-303 from spec `i` on: one cell per spec. A spec without a
      plan has the whole mapping prepared against the object's class first;
      a spec still without a plan then throws. A multi-getter spec writes
      its values unquoted; when one of its getters throws, the quote flag
      stays off for the specs after it. */
  function ObjectCells(env: Env, cache: Cache, v: Value, m: Mapping, i: nat, quote: bool): (r: Result<Cells>)
    requires v.Obj? && Valid(cache) && i <= |m.attrs|
    ensures r.Ok? ==> Valid(r.value.cache) && Extends(cache, r.value.cache)
    ensures r.Ok? ==> |r.value.cells| == |m.attrs| - i
    ensures r.Ok? ==> QuoteFlow(r.value.cells, quote)
    decreases v, 1, |m.attrs| - i
  {
    if i == |m.attrs| then Ok(Cells([], cache))
    else
      var m' :- if m.attrs[i].plan.None? then Prepare(env.u, v.objClass, m) else Ok(m);
      var a := m'.attrs[i];
      if a.plan.None? then Err(NullPointer)
      else
        var gs := a.plan.value;
        var multi := |gs| > 1;
        var p :- GetterValues(env, cache, v, a.Child(), gs, 0, quote && !multi);
        var rest :- ObjectCells(env, p.cache, v, m', i + 1, if p.failed && multi then false else quote);
        Ok(Cells([Cell(p.text, multi, p.failed, quote && !multi)] + rest.cells, rest.cache))
  }

  /** Lines 286-290 from getter `j` on: a method's return value or a literal
      written with the spec's child mapping; the first method that throws
      ends the cell. */
  function GetterValues(env: Env, cache: Cache, v: Value, child: Option<Mapping>, gs: seq<Getter>, j: nat, quote: bool): (r: Result<Piece>)
    requires v.Obj? && Valid(cache) && j <= |gs|
    ensures r.Ok? ==> Valid(r.value.cache) && Extends(cache, r.value.cache)
    ensures r.Ok? && r.value.failed ==> exists k :: j <= k < |gs| && gs[k].Invoke? && PropIndex(v.props, gs[k].meth.name).None?
    ensures (forall k :: j <= k < |gs| ==> gs[k].Invoke? ==> PropIndex(v.props, gs[k].meth.name).Some?) && r.Ok? ==> !r.value.failed
    decreases v, 0, |gs| - j
  {
    if j == |gs| then Ok(Piece("", false, cache))
    else
      match gs[j]
      case Literal(t) =>
        var rest :- GetterValues(env, cache, v, child, gs, j + 1, quote);
        Ok(Piece(ScalarOut(env.excel, Str(t), quote) + rest.text, rest.failed, rest.cache))
      case Invoke(meth) =>
        match PropIndex(v.props, meth.name)
        case None => Ok(Piece("", true, cache))
        case Some(k) =>
          var o :- Content(env, cache, v.props[k].result, false, child, quote);
          var rest :- GetterValues(env, o.cache, v, child, gs, j + 1, quote);
          Ok(Piece(o.text + rest.text, rest.failed, rest.cache))
  }

  /** Lines 268-303: an object written against a mapping it is not rendered
      as a string for is its cells, assembled with `div` starting empty;
      when no getter throws that is the cells in mapping order joined by
      single commas. */
  lemma ObjectContent(env: Env, cache: Cache, v: Value, rows: bool, mapping: Option<Mapping>, quote: bool)
    requires Valid(cache) && v.Obj? && mapping.Some? && !NeedsToString(env.u, env.cfg, v.objClass)
    ensures var r := Content(env, cache, v, rows, mapping, quote);
            var cs := ObjectCells(env, cache, v, mapping.value, 0, quote);
            && (r.Ok? <==> cs.Ok?)
            && (r.Ok? ==> r.value.text == Assemble(cs.value.cells, "") && r.value.cache == cs.value.cache)
            && (r.Ok? && (forall k :: 0 <= k < |cs.value.cells| ==> !cs.value.cells[k].failed) ==>
                  r.value.text == Join(WrappedAll(cs.value.cells), Separator))
  {
    var cs := ObjectCells(env, cache, v, mapping.value, 0, quote);
    if cs.Ok? && forall k :: 0 <= k < |cs.value.cells| ==> !cs.value.cells[k].failed {
      if cs.value.cells == [] {
        assert WrappedAll(cs.value.cells) == [];
      } else {
        AssembleJoins(cs.value.cells, "");
      }
    }
  }

  /** A string, number or boolean. */
  predicate IsScalar(v: Value)
  {
    v.Str? || v.Num? || v.Bool?
  }

  /** On object `v`, getter `g` yields a scalar: it is a literal, or a method
      that returns a string, number or boolean. */
  predicate ScalarGetter(v: Value, g: Getter)
    requires v.Obj?
  {
    g.Literal? || (PropIndex(v.props, g.meth.name).Some? && IsScalar(v.props[PropIndex(v.props, g.meth.name).value].result))
  }

  /** The scalar `g` yields on `v`; a literal stands for a string. */
  function GetterScalar(v: Value, g: Getter): (r: Value)
    requires v.Obj? && ScalarGetter(v, g)
    ensures IsScalar(r)
  {
    if g.Literal? then Str(g.text) else v.props[PropIndex(v.props, g.meth.name).value].result
  }

  /** Reference text of a cell whose getters all yield scalars: each scalar
      written with the cell's quote flag, in plan order. */
  function ScalarCellText(excel: bool, v: Value, gs: seq<Getter>, quote: bool): string
    requires v.Obj? && forall k :: 0 <= k < |gs| ==> ScalarGetter(v, gs[k])
  {
    if gs == [] then "" else ScalarOut(excel, GetterScalar(v, gs[0]), quote) + ScalarCellText(excel, v, gs[1..], quote)
  }

  /** A cell whose getters all yield scalars writes them in plan order,
      cannot fail, and leaves the registry untouched, whatever the child
      mapping. */
  lemma {:induction false} ScalarGetterValues(env: Env, cache: Cache, v: Value, child: Option<Mapping>, gs: seq<Getter>, j: nat, quote: bool)
    requires v.Obj? && Valid(cache) && j <= |gs|
    requires forall k :: j <= k < |gs| ==> ScalarGetter(v, gs[k])
    ensures GetterValues(env, cache, v, child, gs, j, quote) == Ok(Piece(ScalarCellText(env.excel, v, gs[j..], quote), false, cache))
    decreases |gs| - j
  {
    if j < |gs| {
      ScalarGetterValues(env, cache, v, child, gs, j + 1, quote);
      var rest := ScalarCellText(env.excel, v, gs[j + 1..], quote);
      var x := GetterScalar(v, gs[j]);
      var head := ScalarOut(env.excel, x, quote);
      assert ScalarCellText(env.excel, v, gs[j..], quote) == head + rest by {
        assert gs[j..][0] == gs[j] && gs[j..][1..] == gs[j + 1..];
      }
      if gs[j].Invoke? {
        var k := PropIndex(v.props, gs[j].meth.name).value;
        assert v.props[k].result == x;
        assert Content(env, cache, x, false, child, quote) == Ok(Out(head, cache));
      }
    } else {
      assert gs[j..] == [];
    }
  }

  /** Every spec of `m` from `i` on has a plan whose getters yield scalars on `v`. */
  predicate ScalarPlans(v: Value, m: Mapping, i: nat)
    requires v.Obj?
  {
    forall k :: i <= k < |m.attrs| ==>
      && m.attrs[k].plan.Some?
      && forall j :: 0 <= j < |m.attrs[k].plan.value| ==> ScalarGetter(v, m.attrs[k].plan.value[j])
  }

  /** Reference cells of such an object: one per spec, holding its scalars. */
  function ScalarCells(excel: bool, v: Value, m: Mapping, i: nat, quote: bool): (r: seq<Cell>)
    requires v.Obj? && i <= |m.attrs| && ScalarPlans(v, m, i)
    ensures |r| == |m.attrs| - i
    ensures forall k :: 0 <= k < |r| ==> !r[k].failed
    decreases |m.attrs| - i
  {
    if i == |m.attrs| then []
    else
      var gs := m.attrs[i].plan.value;
      var multi := |gs| > 1;
      [Cell(ScalarCellText(excel, v, gs, quote && !multi), multi, false, quote && !multi)]
        + ScalarCells(excel, v, m, i + 1, quote)
  }

  /** An object whose specs are all prepared with scalar getters writes the
      reference cells and leaves the registry untouched. */
  lemma {:induction false} ScalarObjectCells(env: Env, cache: Cache, v: Value, m: Mapping, i: nat, quote: bool)
    requires v.Obj? && Valid(cache) && i <= |m.attrs| && ScalarPlans(v, m, i)
    ensures ObjectCells(env, cache, v, m, i, quote) == Ok(Cells(ScalarCells(env.excel, v, m, i, quote), cache))
    decreases |m.attrs| - i
  {
    if i < |m.attrs| {
      ScalarObjectCells(env, cache, v, m, i + 1, quote);
      var a := m.attrs[i];
      var gs := a.plan.value;
      var multi := |gs| > 1;
      var q := quote && !multi;
      var text := ScalarCellText(env.excel, v, gs, q);
      assert GetterValues(env, cache, v, a.Child(), gs, 0, q) == Ok(Piece(text, false, cache)) by {
        ScalarGetterValues(env, cache, v, a.Child(), gs, 0, q);
        assert gs[0..] == gs;
      }
      assert ScalarCells(env.excel, v, m, i, quote) == [Cell(text, multi, false, q)] + ScalarCells(env.excel, v, m, i + 1, quote);
    }
  }

  /** The loop of lines 227-242 writes the items joined by `", "`. */
  lemma InterleaveJoins(texts: seq<string>)
    ensures Interleave(texts, "") == Join(texts, SpacedSeparator)
  {
    if texts != [] {
      InterleaveSpaced(texts[1..]);
      assert Interleave(texts, "") == "" + texts[0] + Interleave(texts[1..], SpacedSeparator);
      if |texts| > 1 {
        assert Join(texts, SpacedSeparator) == texts[0] + SpacedSeparator + Join(texts[1..], SpacedSeparator);
      }
    }
  }

  lemma {:induction false} InterleaveSpaced(texts: seq<string>)
    ensures Interleave(texts, SpacedSeparator) == if texts == [] then "" else SpacedSeparator + Join(texts, SpacedSeparator)
    decreases |texts|
  {
    if texts != [] {
      InterleaveSpaced(texts[1..]);
      var rest := texts[1..];
      assert Interleave(texts, SpacedSeparator) == SpacedSeparator + texts[0] + Interleave(rest, SpacedSeparator);
      if rest != [] {
        assert Join(texts, SpacedSeparator) == texts[0] + SpacedSeparator + Join(rest, SpacedSeparator);
      }
    }
  }

  /** A cell as it appears between separators. */
  function Wrapped(c: Cell): string
  {
    (if c.multi then Quote else "") + c.text + (if c.multi && !c.failed then Quote else "")
  }

  function WrappedAll(cells: seq<Cell>): (r: seq<string>)
    ensures |r| == |cells| && forall k :: 0 <= k < |cells| ==> r[k] == Wrapped(cells[k])
  {
    if cells == [] then [] else [Wrapped(cells[0])] + WrappedAll(cells[1..])
  }

  /** When no getter throws, a decomposed object is its cells in mapping
      order, separated by single commas, with none leading or trailing; a
      multi-getter cell is enclosed in one pair of quotes. */
  lemma {:induction false} AssembleJoins(cells: seq<Cell>, div: string)
    requires |cells| > 0 && forall k :: 0 <= k < |cells| ==> !cells[k].failed
    ensures Assemble(cells, div) == div + Join(WrappedAll(cells), Separator)
    decreases |cells|
  {
    var c := cells[0];
    var rest := cells[1..];
    assert Assemble(cells, div) == div + Wrapped(c) + Assemble(rest, Separator);
    if rest == [] {
      assert WrappedAll(cells) == [Wrapped(c)];
    } else {
      AssembleJoins(rest, Separator);
      assert WrappedAll(cells)[1..] == WrappedAll(rest);
      assert Join(WrappedAll(cells), Separator) == Wrapped(c) + Separator + Join(WrappedAll(rest), Separator);
    }
  }

  /** A cell whose getter threw does not advance the separator: the next cell
      is written with the same `div`, so with a failing first spec the next
      value moves into the first column. */
  lemma FailedCellKeepsSeparator(c: Cell, rest: seq<Cell>, div: string)
    requires c.failed
    ensures Assemble([c] + rest, div) == div + Wrapped(c) + Assemble(rest, div)
  {
    assert ([c] + rest)[0] == c && ([c] + rest)[1..] == rest;
  }

  /** The shift in numbers: a failed single-getter spec followed by one good
      spec gives one field with no separator at all. */
  lemma FailedFirstCellShiftsColumns(t: string)
    ensures Assemble([Cell("", false, true, true), Cell(t, false, false, true)], "") == t
  {
    FailedCellKeepsSeparator(Cell("", false, true, true), [Cell(t, false, false, true)], "");
  }

  /** Each element of a top-level container is one row followed by the line separator. */
  lemma {:induction false} RowLinesAppend(a: seq<string>, b: seq<string>, newline: string)
    ensures RowLines(a + b, newline) == RowLines(a, newline) + RowLines(b, newline)
    decreases |a|
  {
    if a == [] {
      assert a + b == b;
    } else {
      RowLinesAppend(a[1..], b, newline);
      assert (a + b)[0] == a[0] && (a + b)[1..] == a[1..] + b;
    }
  }

  lemma OneRow(t: string, newline: string)
    ensures RowLines([t], newline) == t + newline
  {
  }

  /** A null nested object fills one column per spec of its mapping: for a
      mapping of leaves that is one column per header. */
  lemma NullFillFlat(m: Mapping)
    requires |m.attrs| > 0 && forall i :: 0 <= i < |m.attrs| ==> m.attrs[i].Header().Some?
    ensures Leaves(m, 0).Ok? && |Leaves(m, 0).value| == |m.attrs|
    ensures NullFill(Some(m)).Ok? && |NullFill(Some(m)).value| + 1 == |Leaves(m, 0).value|
  {
    FlatLeaves(m, 0);
  }

  lemma {:induction false} FlatLeaves(m: Mapping, i: nat)
    requires i <= |m.attrs| && forall j :: i <= j < |m.attrs| ==> m.attrs[j].Header().Some?
    ensures Leaves(m, i).Ok? && |Leaves(m, i).value| == |m.attrs| - i
    decreases |m.attrs| - i
  {
    if i < |m.attrs| {
      FlatLeaves(m, i + 1);
    }
  }

  /** Only the top-level specs of the mapping count: a null object whose
      mapping holds a nested group of two leaves fills two columns where
      its header line has three. */
  lemma NullFillCountsTopLevelSpecs()
    ensures var inner := Mapping([LeafAttribute(Some("x"), ["x"]), LeafAttribute(Some("y"), ["y"])]);
            var m := Mapping([LeafAttribute(Some("a"), ["a"]), NestedAttribute("g", Some(inner))]);
            && Leaves(m, 0) == Ok(["a", "x", "y"])
            && NullFill(Some(m)) == Ok(",")
  {
    var inner := Mapping([LeafAttribute(Some("x"), ["x"]), LeafAttribute(Some("y"), ["y"])]);
    var m := Mapping([LeafAttribute(Some("a"), ["a"]), NestedAttribute("g", Some(inner))]);
    assert Leaves(inner, 2) == Ok([]);
    assert ["y"] + [] == ["y"] && ["x"] + ["y"] == ["x", "y"] && ["x", "y"] + [] == ["x", "y"];
    assert Leaves(inner, 1) == Ok(["y"]);
    assert Leaves(inner, 0) == Ok(["x", "y"]);
    assert Leaves(m, 2) == Ok([]);
    assert Leaves(m, 1) == Ok(["x", "y"]);
    assert ["a"] + ["x", "y"] == ["a", "x", "y"];
    assert Leaves(m, 0) == Ok(["a"] + ["x", "y"]);
    assert |m.attrs| - 1 == 1;
    assert Commas(|m.attrs| - 1) == "," + Commas(0) == ",";
  }

  /** A null property value written against a spec without a child mapping
      (every leaf spec) dereferences the null mapping. */
  lemma NullLeafValueThrows(env: Env, cache: Cache, quote: bool)
    requires Valid(cache)
    ensures Content(env, cache, Null, false, None, quote) == Err(NullPointer)
  {
  }

  /** A getter that is a literal (no `get`/`is` method was found) writes
      the literal itself, as a string value, and cannot fail. */
  lemma LiteralGetterWritesItsName(env: Env, cache: Cache, v: Value, child: Option<Mapping>, t: string, quote: bool)
    requires v.Obj? && Valid(cache)
    ensures GetterValues(env, cache, v, child, [Literal(t)], 0, quote)
         == Ok(Piece(ScalarOut(env.excel, Str(t), quote), false, cache))
  {
    assert GetterValues(env, cache, v, child, [Literal(t)], 1, quote) == Ok(Piece("", false, cache));
    assert ScalarOut(env.excel, Str(t), quote) + "" == ScalarOut(env.excel, Str(t), quote);
  }

  /** Inside a field, the items of a container of strings are written raw,
      one text per item in order, with the given mapping and no lookup. */
  lemma {:induction false} JoinedStrings(env: Env, cache: Cache, v: Value, i: nat, m: Mapping)
    requires (v.Arr? || v.Coll?) && Valid(cache) && i <= |Elements(v)|
    requires forall k :: i <= k < |Elements(v)| ==> Elements(v)[k].Str?
    ensures var r := Joined(env, cache, v, i, Some(m));
            && r.Ok? && r.value.cache == cache
            && forall k :: 0 <= k < |r.value.texts| ==> r.value.texts[k] == Elements(v)[i + k].s
    decreases |Elements(v)| - i
  {
    if i < |Elements(v)| {
      JoinedStrings(env, cache, v, i + 1, m);
      var rest := Joined(env, cache, v, i + 1, Some(m)).value;
      var texts := [Elements(v)[i].s] + rest.texts;
      forall k | 0 <= k < |texts|
        ensures texts[k] == Elements(v)[i + k].s
      {
        if k > 0 {
          assert texts[k] == rest.texts[k - 1];
        }
      }
      JoinedStringStep(env, cache, v, i, m);
    } else {
      assert Joined(env, cache, v, i, Some(m)) == Ok(Items([], cache));
    }
  }

  /** One string item inside a field: its raw text, then the items after it. */
  lemma JoinedStringStep(env: Env, cache: Cache, v: Value, i: nat, m: Mapping)
    requires (v.Arr? || v.Coll?) && Valid(cache) && i < |Elements(v)| && Elements(v)[i].Str?
    requires Joined(env, cache, v, i + 1, Some(m)).Ok?
    ensures var rest := Joined(env, cache, v, i + 1, Some(m)).value;
            Joined(env, cache, v, i, Some(m)) == Ok(Items([Elements(v)[i].s] + rest.texts, rest.cache))
  {
    var item := ElementAt(v, i);
    assert ItemMapping(env, cache, item, Some(m)) == Ok(Resolved(Some(m), cache));
    assert ScalarOut(env.excel, item, false) == item.s;
    assert Content(env, cache, item, false, Some(m), false) == Ok(Out(item.s, cache));
  }

  /** A nested list of strings fills one field: the items joined by `", "`
      inside one pair of quotes. */
  lemma NestedStringsOneField(env: Env, cache: Cache, m: Mapping)
    requires Valid(cache)
    ensures Content(env, cache, Coll("java.util.List", [Str("a"), Str("b")]), false, Some(m), true)
         == Ok(Out("\"a, b\"", cache))
  {
    var v := Coll("java.util.List", [Str("a"), Str("b")]);
    JoinedStrings(env, cache, v, 0, m);
    var texts := Joined(env, cache, v, 0, Some(m)).value.texts;
    assert texts == ["a", "b"];
    assert Joined(env, cache, v, 0, Some(m)) == Ok(Items(["a", "b"], cache));
    InterleaveJoins(["a", "b"]);
    assert ["a", "b"][1..] == ["b"];
    assert Join(["a", "b"], SpacedSeparator) == "a" + ", " + "b" == "a, b";
    assert Wrap(true, "a, b") == "\"a, b\"";
    assert Content(env, cache, v, false, Some(m), true) == Ok(Out(Wrap(true, Interleave(["a", "b"], "")), cache));
  }

  /** Lines 62-79: unwrap first items of iterables, then first elements of
      arrays; an empty container or a null on the way means no header. */
  function Probe(v: Value): (r: Option<Value>)
    ensures r.Some? ==> !r.value.Null? && !r.value.Arr?
    ensures v.Coll? && |v.items| == 0 ==> r.None?
    ensures v.Coll? && |v.items| > 0 ==> r == Probe(v.items[0])
    ensures !v.Coll? ==> r == ProbeArray(v)
  {
    match v
    case Coll(_, items) => if |items| == 0 then None else Probe(items[0])
    case _ => ProbeArray(v)
  }

  /** Lines 70-79. */
  function ProbeArray(v: Value): (r: Option<Value>)
    ensures r.Some? ==> !r.value.Null? && !r.value.Arr?
    ensures v.Arr? && |v.elems| > 0 ==> r == ProbeArray(v.elems[0])
    ensures v.Null? || (v.Arr? && |v.elems| == 0) ==> r.None?
    ensures !v.Null? && !v.Arr? ==> r == Some(v)
  {
    match v
    case Null => None
    case Arr(_, elems) => if |elems| == 0 then None else ProbeArray(elems[0])
    case _ => Some(v)
  }

  /** Line 90 (and 98-102): the getters of the header sample's mapping are
      prepared; a container class skips this, a null mapping throws. */
  function PrepareFor(u: Universe, cls: ClassId, mapping: Option<Mapping>): (r: Result<Option<Mapping>>)
    ensures SkipsPreparation(u, cls) ==> r == Ok(mapping)
    ensures !SkipsPreparation(u, cls) && mapping.None? ==> r == Err(NullPointer)
    ensures !SkipsPreparation(u, cls) && mapping.Some? && WellNamed(mapping.value) ==> r.Ok?
  {
    if SkipsPreparation(u, cls) then Ok(mapping)
    else match mapping
      case None => Err(NullPointer)
      case Some(m) =>
        var p :- Prepare(u, cls, m);
        Ok(Some(p))
  }

  /** `writeHeaders(obj, stream)` (lines 61-92): the header line of the
      sample's mapping followed by the line separator. */
  function HeaderPhase(env: Env, cache: Cache, v: Value): (r: Result<Out>)
    requires Valid(cache)
    ensures r.Ok? ==> Valid(r.value.cache) && Extends(cache, r.value.cache)
    ensures Probe(v).None? ==> r == Ok(Out("", cache))
    ensures !env.cfg.writeHeaders && r.Ok? ==> r.value.text == ""
    ensures env.cfg.writeHeaders && r.Ok? && Probe(v).Some? ==>
              var res := Resolve(env.u, env.cfg, cache, ClassOf(env.u, Probe(v).value).value, env.fuel);
              && res.Ok?
              && (res.value.mapping.None? ==> r.value.text == "")
              && (res.value.mapping.Some? ==> Ok(r.value.text) == HeaderLineOf(env, res.value.mapping.value))
  {
    match Probe(v)
    case None => Ok(Out("", cache))
    case Some(x) =>
      var cls := ClassOf(env.u, x).value;
      var res :- Resolve(env.u, env.cfg, cache, cls, env.fuel);
      match res.mapping
      case None => Ok(Out("", res.cache))
      case Some(m) =>
        var line :- if env.cfg.writeHeaders then HeaderLineOf(env, m) else Ok("");
        var again :- Resolve(env.u, env.cfg, res.cache, cls, env.fuel);
        var prepared :- PrepareFor(env.u, cls, again.mapping);
        Ok(Out(line, again.cache))
  }

  /** Lines 86-87. */
  function HeaderLineOf(env: Env, m: Mapping): (r: Result<string>)
    ensures r.Ok? <==> Headers(env.excel, m, 0, "").Ok?
    ensures r.Ok? ==> r.value == Headers(env.excel, m, 0, "").value + env.newline
  {
    var h :- Headers(env.excel, m, 0, "");
    Ok(h + env.newline)
  }

  /** `serialize(obj)` (lines 37-47): the header phase when headers are on,
      then the value as rows against the mapping of its class. */
  function Serialize(env: Env, cache: Cache, v: Value): (r: Result<Out>)
    requires Valid(cache)
    ensures r.Ok? ==> Valid(r.value.cache) && Extends(cache, r.value.cache)
    ensures v.Null? && !env.cfg.writeHeaders ==> r == Ok(Out("", cache))
    ensures !env.cfg.writeHeaders && !v.Null? ==>
              && (r.Ok? <==> (Resolve(env.u, env.cfg, cache, ClassOf(env.u, v).value, env.fuel).Ok?
                              && var res := Resolve(env.u, env.cfg, cache, ClassOf(env.u, v).value, env.fuel).value;
                              Content(env, res.cache, v, true, res.mapping, true).Ok?))
    ensures !env.cfg.writeHeaders && !v.Null? && r.Ok? ==>
              var res := Resolve(env.u, env.cfg, cache, ClassOf(env.u, v).value, env.fuel).value;
              r.value.text == Content(env, res.cache, v, true, res.mapping, true).value.text
  {
    var head :- if env.cfg.writeHeaders then HeaderPhase(env, cache, v) else Ok(Out("", cache));
    if v.Null? then Ok(head)
    else
      var res :- Resolve(env.u, env.cfg, head.cache, ClassOf(env.u, v).value, env.fuel);
      var body :- Content(env, res.cache, v, true, res.mapping, true);
      Ok(Out(head.text + body.text, body.cache))
  }

  /** `serialize` with headers on (lines 38-46): the header phase writes
      first, and the value is resolved against the cache it leaves. */
  lemma SerializeWithHeaders(env: Env, cache: Cache, v: Value)
    requires Valid(cache) && env.cfg.writeHeaders
    ensures var r := Serialize(env, cache, v);
            r.Ok? ==>
              && HeaderPhase(env, cache, v).Ok?
              && var h := HeaderPhase(env, cache, v).value;
                 && (v.Null? ==> r.value == h)
                 && (!v.Null? ==>
                       && Resolve(env.u, env.cfg, h.cache, ClassOf(env.u, v).value, env.fuel).Ok?
                       && var res := Resolve(env.u, env.cfg, h.cache, ClassOf(env.u, v).value, env.fuel).value;
                          && Content(env, res.cache, v, true, res.mapping, true).Ok?
                          && r.value.text == h.text + Content(env, res.cache, v, true, res.mapping, true).value.text)
    ensures HeaderPhase(env, cache, v).Err? ==> Serialize(env, cache, v) == HeaderPhase(env, cache, v)
  {
  }
}
