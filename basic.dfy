/** `extract_basic_data`: reading the company's registration record out of
    the basic-data card. The page is given as the element `find_element`
    finds under each field's id (`ElementId`); a field that is not in the map
    is one whose element is not found. */
module Basic {
  import opened Py

  /** The keys of the dict `extract_basic_data` returns, in insertion order.
      The first seventeen are read from `field_map`, the last four are the
      product items. */
  datatype BasicField =
    | BanNo | IssueDate | RegDate | CnName | EnName | CnAddress | EnAddress
    | Representative | Tel1 | Tel2 | Fax | OldCnName | OldEnName | Website
    | Email | ImportQualification | ExportQualification
    | ImportItemsCn | ImportItemsEn | ExportItemsCn | ExportItemsEn

  /** The dict key the field is stored under (documentation: the model
      keys the dict by `BasicField` itself). */
  function Label(f: BasicField): string {
    match f
    case BanNo => "統一編號"
    case IssueDate => "核發日期"
    case RegDate => "原始登記日期"
    case CnName => "廠商中文名稱"
    case EnName => "廠商英文名稱"
    case CnAddress => "中文營業地址"
    case EnAddress => "英文營業地址"
    case Representative => "代表人"
    case Tel1 => "電話號碼1"
    case Tel2 => "電話號碼2"
    case Fax => "傳真號碼"
    case OldCnName => "原中文名稱"
    case OldEnName => "原英文名稱"
    case Website => "網站"
    case Email => "電子信箱"
    case ImportQualification => "進口資格"
    case ExportQualification => "出口資格"
    case ImportItemsCn => "進口項目(中)"
    case ImportItemsEn => "進口項目(英)"
    case ExportItemsCn => "出口項目(中)"
    case ExportItemsEn => "出口項目(英)"
  }

  /** The id of the page element the field is read from (documentation:
      the page is given by field, see `Dom`). */
  function ElementId(f: BasicField): string {
    match f
    case BanNo => "banNoM"
    case IssueDate => "issueDateM"
    case RegDate => "regDateM"
    case CnName => "cNameM"
    case EnName => "eNameM"
    case CnAddress => "cAdressM"
    case EnAddress => "eAdressM"
    case Representative => "regNameM"
    case Tel1 => "tel1M"
    case Tel2 => "tel2M"
    case Fax => "faxM"
    case OldCnName => "oldCNameM"
    case OldEnName => "oldENameM"
    case Website => "urlM"
    case Email => "emailM"
    case ImportQualification => "importM"
    case ExportQualification => "exportM"
    case ImportItemsCn => "cStockIM"
    case ImportItemsEn => "eStockIM"
    case ExportItemsCn => "cStockEM"
    case ExportItemsEn => "eStockEM"
  }

  /** The fields of `field_map`, in its order. */
  const MappedFields: seq<BasicField> := [
    BanNo, IssueDate, RegDate, CnName, EnName, CnAddress, EnAddress,
    Representative, Tel1, Tel2, Fax, OldCnName, OldEnName, Website,
    Email, ImportQualification, ExportQualification]

  /** The product-item fields, read from a `span` inside their element. */
  const ItemFields: seq<BasicField> := [ImportItemsCn, ImportItemsEn, ExportItemsCn, ExportItemsEn]

  const AllFields: seq<BasicField> := MappedFields + ItemFields

  /** What the scraper can see of one element: the texts of the `span`s
      inside it, the `href`s of the anchors inside it, and its own text, all
      in document order. */
  datatype Element = Element(spans: seq<string>, anchors: seq<string>, text: string)

  /** The elements of the page, by the field whose id they carry. */
  type Dom = map<BasicField, Element>

  /** The product items are the fields of the second loop. */
  predicate IsItem(f: BasicField) {
    f.ImportItemsCn? || f.ImportItemsEn? || f.ExportItemsCn? || f.ExportItemsEn?
  }

  /** The first loop visits the fields that are not product items ... */
  lemma MappedAreNotItems(i: nat)
    requires i < |MappedFields|
    ensures !IsItem(MappedFields[i])
  {
  }

  /** ... the second the product items ... */
  lemma ItemsAreItems(i: nat)
    requires i < |ItemFields|
    ensures IsItem(ItemFields[i])
  {
  }

  /** ... and between them they visit every field. */
  lemma AllFieldsVisited(f: BasicField)
    ensures f in AllFields
  {
  }

  /** The value the first loop stores for a field of `field_map`: the first
      anchor's `href` for the web site, otherwise the stripped text of the
      first `span`, or of the element itself when it has no `span`; "" when
      the element is missing. */
  function MappedValue(dom: Dom, f: BasicField): string {
    if f !in dom then ""
    else
      var el := dom[f];
      if f == Website then (if el.anchors != [] then el.anchors[0] else "")
      else if el.spans != [] then Strip(el.spans[0])
      else Strip(el.text)
  }

  /** The value the second loop stores for a product-item field: the stripped
      text of the first `span`, or "" when the element or its `span` is
      missing. */
  function ItemValue(dom: Dom, f: BasicField): string {
    if f in dom && dom[f].spans != [] then Strip(dom[f].spans[0])
    else ""
  }

  function FieldValue(dom: Dom, f: BasicField): string {
    if IsItem(f) then ItemValue(dom, f) else MappedValue(dom, f)
  }

  /** The dict after storing the fields of `fields` in order. */
  function Stored(dom: Dom, fields: seq<BasicField>): map<BasicField, string> {
    if fields == [] then map[]
    else Stored(dom, fields[..|fields| - 1])[fields[|fields| - 1] := FieldValue(dom, fields[|fields| - 1])]
  }

  /** Storing the fields of `fields` gives an entry for each of them and no
      other, each holding the field's value. */
  lemma {:induction false} StoredSpec(dom: Dom, fields: seq<BasicField>)
    ensures forall f :: f in Stored(dom, fields) <==> f in fields
    ensures forall f :: f in Stored(dom, fields) ==> Stored(dom, fields)[f] == FieldValue(dom, f)
  {
    if fields != [] {
      var front := fields[..|fields| - 1];
      StoredSpec(dom, front);
      assert fields == front + [fields[|fields| - 1]];
    }
  }

  /** Storing one more field. */
  lemma StoredStep(dom: Dom, fields: seq<BasicField>, f: BasicField)
    ensures Stored(dom, fields + [f]) == Stored(dom, fields)[f := FieldValue(dom, f)]
  {
    assert (fields + [f])[..|fields|] == fields;
  }

  /** One more element of `b` taken after `a`. */
  lemma ExtendPrefix<T>(a: seq<T>, b: seq<T>, i: nat)
    requires i < |b|
    ensures a + b[..i + 1] == (a + b[..i]) + [b[i]]
  {
    assert b[..i + 1] == b[..i] + [b[i]];
  }

  /** The dict `extract_basic_data` returns: every field, whatever the page
      holds. */
  function BasicRecord(dom: Dom): (data: map<BasicField, string>)
    ensures forall f :: f in data && data[f] == FieldValue(dom, f)
  {
    forall f {
      AllFieldsVisited(f);
    }
    StoredSpec(dom, AllFields);
    Stored(dom, AllFields)
  }

  /** A field whose element is missing is stored as "", never left out. */
  lemma MissingElementIsEmpty(dom: Dom, f: BasicField)
    requires f !in dom
    ensures BasicRecord(dom)[f] == ""
  {
  }

  /** A product item needs its `span`: without one the field is "" even when
      the element has text of its own. */
  lemma ItemNeedsSpan(dom: Dom, f: BasicField)
    requires IsItem(f) && f in dom && dom[f].spans == []
    ensures BasicRecord(dom)[f] == ""
  {
  }

  /** A field of `field_map` other than the web site falls back on the
      element's own text when it has no `span`. */
  lemma MappedFallsBackOnText(dom: Dom, f: BasicField)
    requires !IsItem(f) && f != Website && f in dom && dom[f].spans == []
    ensures BasicRecord(dom)[f] == Strip(dom[f].text)
  {
  }

  /** The web site is the first anchor's `href`, as it is, not stripped. */
  lemma WebsiteIsFirstHref(dom: Dom)
    requires Website in dom && dom[Website].anchors != []
    ensures BasicRecord(dom)[Website] == dom[Website].anchors[0]
  {
  }

  /** Every value but the web site is stripped: stripping it again changes
      nothing. */
  lemma ValuesAreStripped(dom: Dom, f: BasicField)
    requires f != Website
    ensures Strip(BasicRecord(dom)[f]) == BasicRecord(dom)[f]
  {
    var raw := if f !in dom then ""
      else if dom[f].spans != [] then dom[f].spans[0]
      else if IsItem(f) then ""
      else dom[f].text;
    assert Strip("") == "";
    assert BasicRecord(dom)[f] == Strip(raw);
    StripIdempotent(raw);
  }

  /** The `field_map` loop: for each field, the first anchor's `href` for
      the web site, otherwise the stripped text of the first `span` or of the
      element; "" when the element is missing. */
  method StoreMapped(dom: Dom, fields: seq<BasicField>) returns (data: map<BasicField, string>)
    requires forall i :: 0 <= i < |fields| ==> !IsItem(fields[i])
    ensures data == Stored(dom, fields)
  {
    data := map[];
    for i := 0 to |fields|
      invariant data == Stored(dom, fields[..i])
    {
      var f := fields[i];
      var v: string;
      if f !in dom {
        v := "";
      } else {
        var el := dom[f];
        if f == Website {
          v := if el.anchors != [] then el.anchors[0] else "";
        } else {
          v := if el.spans != [] then Strip(el.spans[0]) else Strip(el.text);
        }
      }
      StoredStep(dom, fields[..i], f);
      assert fields[..i + 1] == fields[..i] + [f];
      data := data[f := v];
    }
    assert fields[..|fields|] == fields;
  }

  /** The product-item loop: for each field, the stripped text of the `span`
      inside its element, or "" when either is missing. */
  method StoreItems(dom: Dom, done: seq<BasicField>, data0: map<BasicField, string>, fields: seq<BasicField>)
    returns (data: map<BasicField, string>)
    requires data0 == Stored(dom, done)
    requires forall i :: 0 <= i < |fields| ==> IsItem(fields[i])
    ensures data == Stored(dom, done + fields)
  {
    data := data0;
    assert done + fields[..0] == done;
    for i := 0 to |fields|
      invariant data == Stored(dom, done + fields[..i])
    {
      var f := fields[i];
      var v := "";
      if f in dom && dom[f].spans != [] {
        v := Strip(dom[f].spans[0]);
      }
      StoredStep(dom, done + fields[..i], f);
      ExtendPrefix(done, fields, i);
      data := data[f := v];
    }
    assert fields[..|fields|] == fields;
  }

  /** `extract_basic_data`: the `field_map` loop, then the product-item loop,
      each storing one entry per field. */
  method ExtractBasicData(dom: Dom) returns (data: map<BasicField, string>)
    ensures data == BasicRecord(dom)
  {
    forall i | 0 <= i < |MappedFields| {
      MappedAreNotItems(i);
    }
    forall i | 0 <= i < |ItemFields| {
      ItemsAreItems(i);
    }
    data := StoreMapped(dom, MappedFields);
    data := StoreItems(dom, MappedFields, data, ItemFields);
  }
}
