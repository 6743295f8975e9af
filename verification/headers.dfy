/** `writeHeaders(stream, mapping, div)`: the header line of a mapping, one
    quoted header per leaf column, depth first. */
module HeaderWriter {
  import opened Wrappers
  import opened Text
  import opened Mappings
  import opened Quoting

  /** Lines 133-145 from spec `i` on, `div` written before the first header
      met. A leaf writes `div` and its quoted header; a nested spec writes its
      child's headers with the same `div`; after either, `div` becomes `,`.
      A spec with neither header nor child dereferences null. */
  function Headers(excel: bool, m: Mapping, i: nat, div: string): (r: Result<string>)
    requires i <= |m.attrs|
    ensures r.Err? ==> r.error == NullPointer
    decreases m, 0, |m.attrs| - i
  {
    if i == |m.attrs| then Ok("")
    else
      var a := m.attrs[i];
      var t :- match a.Header()
        case Some(h) => Ok(div + WriteQuoted(excel, Some(h)))
        case None =>
          match a.Child()
          case None => Err(NullPointer)
          case Some(c) => Headers(excel, c, 0, div);
      var rest :- Headers(excel, m, i + 1, ",");
      Ok(t + rest)
  }

  /** The leaf headers below specs `m.attrs[i..]`, depth first; `Err` where a
      spec has neither a header nor a child. The reference for `Headers`. */
  function Leaves(m: Mapping, i: nat): (r: Result<seq<string>>)
    requires i <= |m.attrs|
    decreases m, 0, |m.attrs| - i
  {
    if i == |m.attrs| then Ok([])
    else
      var a := m.attrs[i];
      var here :- match a.Header()
        case Some(h) => Ok([h])
        case None =>
          match a.Child()
          case None => Err(NullPointer)
          case Some(c) => Leaves(c, 0);
      var rest :- Leaves(m, i + 1);
      Ok(here + rest)
  }

  /** The first leaf below `m.attrs[i..]` sits at the head of every level on
      its way down, so it is the one written with the caller's `div`. */
  predicate LeadsWithLeaf(m: Mapping, i: nat)
    requires i <= |m.attrs|
    decreases m, 0
  {
    && i < |m.attrs|
    && (|| m.attrs[i].Header().Some?
        || (m.attrs[i].Child().Some? && |m.attrs[i].Child().value.attrs| > 0 && LeadsWithLeaf(m.attrs[i].Child().value, 0)))
  }

  /** Each header quoted and preceded by a comma. */
  function CommaQuoted(excel: bool, hs: seq<string>): (r: string)
    ensures |hs| == 0 <==> |r| == 0
    ensures |hs| > 0 ==> r[0] == ','
  {
    if hs == [] then "" else "," + WriteQuoted(excel, Some(hs[0])) + CommaQuoted(excel, hs[1..])
  }

  /** The headers quoted one by one. */
  function QuoteAll(excel: bool, hs: seq<string>): (r: seq<string>)
    ensures |r| == |hs|
    ensures forall k :: 0 <= k < |hs| ==> r[k] == WriteQuoted(excel, Some(hs[k]))
  {
    if hs == [] then [] else [WriteQuoted(excel, Some(hs[0]))] + QuoteAll(excel, hs[1..])
  }

  lemma {:induction false} CommaQuotedAppend(excel: bool, a: seq<string>, b: seq<string>)
    ensures CommaQuoted(excel, a + b) == CommaQuoted(excel, a) + CommaQuoted(excel, b)
    decreases |a|
  {
    if a == [] {
      assert a + b == b;
    } else {
      assert (a + b)[0] == a[0];
      assert (a + b)[1..] == a[1..] + b;
      CommaQuotedAppend(excel, a[1..], b);
    }
  }

  /** What `Headers` writes for leaves `hs`: each quoted header preceded by a
      comma, except that a leading first leaf gets `div` instead. */
  function HeaderText(excel: bool, hs: seq<string>, lead: bool, div: string): string
  {
    if lead && |hs| > 0 then div + WriteQuoted(excel, Some(hs[0])) + CommaQuoted(excel, hs[1..])
    else CommaQuoted(excel, hs)
  }

  /** After the first column the separator is always a comma. */
  lemma CommaDiv(excel: bool, hs: seq<string>, lead: bool)
    ensures HeaderText(excel, hs, lead, ",") == CommaQuoted(excel, hs)
  {
  }

  /** The text of a group followed by the text of the columns after it. */
  lemma HeaderTextAppend(excel: bool, here: seq<string>, rest: seq<string>, lead: bool, div: string)
    requires lead ==> |here| > 0
    ensures HeaderText(excel, here, lead, div) + CommaQuoted(excel, rest) == HeaderText(excel, here + rest, lead, div)
  {
    if lead {
      assert (here + rest)[0] == here[0];
      assert (here + rest)[1..] == here[1..] + rest;
      CommaQuotedAppend(excel, here[1..], rest);
    } else {
      CommaQuotedAppend(excel, here, rest);
    }
  }

  /** A leading leaf is a leaf. */
  lemma {:induction false} LeadHasLeaf(m: Mapping, i: nat)
    requires i <= |m.attrs| && LeadsWithLeaf(m, i) && Leaves(m, i).Ok?
    ensures |Leaves(m, i).value| > 0
    decreases m, 0
  {
    var a := m.attrs[i];
    if a.Header().None? {
      var c := a.Child().value;
      LeadHasLeaf(c, 0);
    }
  }

  /** `Headers` writes exactly the leaves. */
  lemma {:induction false} HeadersAreLeaves(excel: bool, m: Mapping, i: nat, div: string)
    requires i <= |m.attrs|
    ensures Headers(excel, m, i, div).Ok? <==> Leaves(m, i).Ok?
    ensures Leaves(m, i).Ok? ==> Headers(excel, m, i, div).value == HeaderText(excel, Leaves(m, i).value, LeadsWithLeaf(m, i), div)
    decreases m, 0, |m.attrs| - i
  {
    if i < |m.attrs| {
      HeadersAreLeaves(excel, m, i + 1, ",");
      if m.attrs[i].Header().Some? {
        LeafStep(excel, m, i, div);
      } else if m.attrs[i].Child().Some? {
        HeadersAreLeaves(excel, m.attrs[i].Child().value, 0, div);
        NestedStep(excel, m, i, div);
      }
    }
  }

  lemma LeafStep(excel: bool, m: Mapping, i: nat, div: string)
    requires i < |m.attrs| && m.attrs[i].Header().Some?
    requires Headers(excel, m, i + 1, ",").Ok? <==> Leaves(m, i + 1).Ok?
    requires Leaves(m, i + 1).Ok? ==> Headers(excel, m, i + 1, ",").value == HeaderText(excel, Leaves(m, i + 1).value, LeadsWithLeaf(m, i + 1), ",")
    ensures Headers(excel, m, i, div).Ok? <==> Leaves(m, i).Ok?
    ensures Leaves(m, i).Ok? ==> Headers(excel, m, i, div).value == HeaderText(excel, Leaves(m, i).value, LeadsWithLeaf(m, i), div)
  {
    var h := m.attrs[i].Header().value;
    if Leaves(m, i).Ok? {
      var rest := Leaves(m, i + 1).value;
      assert Leaves(m, i).value == [h] + rest;
      assert ([h] + rest)[1..] == rest;
      assert ([h] + rest)[0] == h;
      CommaDiv(excel, rest, LeadsWithLeaf(m, i + 1));
    }
  }

  lemma NestedStep(excel: bool, m: Mapping, i: nat, div: string)
    requires i < |m.attrs| && m.attrs[i].Header().None? && m.attrs[i].Child().Some?
    requires Headers(excel, m, i + 1, ",").Ok? <==> Leaves(m, i + 1).Ok?
    requires Leaves(m, i + 1).Ok? ==> Headers(excel, m, i + 1, ",").value == HeaderText(excel, Leaves(m, i + 1).value, LeadsWithLeaf(m, i + 1), ",")
    requires var c := m.attrs[i].Child().value;
             && (Headers(excel, c, 0, div).Ok? <==> Leaves(c, 0).Ok?)
             && (Leaves(c, 0).Ok? ==> Headers(excel, c, 0, div).value == HeaderText(excel, Leaves(c, 0).value, LeadsWithLeaf(c, 0), div))
    ensures Headers(excel, m, i, div).Ok? <==> Leaves(m, i).Ok?
    ensures Leaves(m, i).Ok? ==> Headers(excel, m, i, div).value == HeaderText(excel, Leaves(m, i).value, LeadsWithLeaf(m, i), div)
  {
    var c := m.attrs[i].Child().value;
    if Leaves(m, i).Ok? {
      var here := Leaves(c, 0).value;
      var rest := Leaves(m, i + 1).value;
      assert Leaves(m, i).value == here + rest;
      CommaDiv(excel, rest, LeadsWithLeaf(m, i + 1));
      assert Headers(excel, m, i, div).value == Headers(excel, c, 0, div).value + CommaQuoted(excel, rest);
      assert LeadsWithLeaf(m, i) == LeadsWithLeaf(c, 0);
      if LeadsWithLeaf(c, 0) {
        LeadHasLeaf(c, 0);
      }
      HeaderTextAppend(excel, here, rest, LeadsWithLeaf(c, 0), div);
    }
  }

  /** Joining quoted headers with commas is the comma-prefixed form after the first. */
  lemma {:induction false} JoinQuoted(excel: bool, hs: seq<string>)
    requires |hs| > 0
    ensures Join(QuoteAll(excel, hs), ",") == WriteQuoted(excel, Some(hs[0])) + CommaQuoted(excel, hs[1..])
    decreases |hs|
  {
    if |hs| > 1 {
      JoinQuoted(excel, hs[1..]);
      assert QuoteAll(excel, hs)[1..] == QuoteAll(excel, hs[1..]);
    }
  }

  /** The header line of a mapping whose first column is a leaf: one quoted
      header per leaf column, depth first, separated by single commas. */
  lemma HeaderLine(excel: bool, m: Mapping)
    requires LeadsWithLeaf(m, 0) && Leaves(m, 0).Ok?
    ensures Headers(excel, m, 0, "") == Ok(Join(QuoteAll(excel, Leaves(m, 0).value), ","))
  {
    HeadersAreLeaves(excel, m, 0, "");
    LeadHasLeaf(m, 0);
    var hs := Leaves(m, 0).value;
    assert "" + WriteQuoted(excel, Some(hs[0])) == WriteQuoted(excel, Some(hs[0]));
    JoinQuoted(excel, Leaves(m, 0).value);
  }

  /** When the first column group is empty (a nested spec whose child has no
      specs) the header line starts with a separator. */
  lemma EmptyFirstGroupLeadsWithComma(excel: bool, m: Mapping)
    requires |m.attrs| > 0 && m.attrs[0].Header().None? && m.attrs[0].Child() == Some(EmptyMapping())
    requires Leaves(m, 0).Ok? && |Leaves(m, 0).value| > 0
    ensures Headers(excel, m, 0, "").Ok?
    ensures |Headers(excel, m, 0, "").value| > 0 && Headers(excel, m, 0, "").value[0] == ','
  {
    HeadersAreLeaves(excel, m, 0, "");
    assert !LeadsWithLeaf(EmptyMapping(), 0);
  }

  /** In Excel mode a header is written with the `=` prefix, like a value. */
  lemma ExcelHeaderCell()
    ensures Headers(true, Mapping([LeafAttribute(Some("Age"), ["age"])]), 0, "") == Ok("=\"Age\"")
  {
    var m := Mapping([LeafAttribute(Some("Age"), ["age"])]);
    assert '"' !in "Age" && ',' !in "Age";
    assert WriteQuoted(true, Some("Age")) == "=" + "\"" + "Age" + "\"" == "=\"Age\"";
    assert m.attrs[0].Header() == Some("Age");
    assert Headers(true, m, 1, ",") == Ok("");
    assert Headers(true, m, 0, "") == Ok("" + WriteQuoted(true, Some("Age")) + "");
    assert "" + WriteQuoted(true, Some("Age")) + "" == "=\"Age\"";
  }
}
