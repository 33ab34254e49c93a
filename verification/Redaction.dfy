/**
 Removing from a Core payload what a customer must not see: internal fields at any level,
 metadata except the opening-fee summary, and the details of other customers' target accounts.
 */
module Redaction {

  import opened Common

  datatype Json =
    | Undefined
    | Literal(value: int)
    | Text(text: string)
    | Items(items: seq<Json>)
    | Fields(fields: seq<Field>)

  datatype Field = Field(key: string, value: Json)

  const INTERNAL_FIELDS := {
    "isInternal", "vaFeeExempt", "vaFeePolicyVersion", "vaFeePolicyEvents", "openingFeeBasis",
    "openingFeeWaiverBasis", "openingFeeWaivedBy", "openingFeeWaiverReason", "creatorId", "reviewerId",
    "checkerId", "operatorId", "makerId", "kycReviewerId", "kycReviewNote", "reviewNote", "operatorNote",
    "openingFeeUpdatedBy", "idempotencyKey", "maker", "checker", "operator"}

  const FEE_FIELDS := ["requestId", "channelCode", "bankName", "version", "reservedAt"]

  predicate IsObject(v: Json) { v.Items? || v.Fields? }

  /** Reading a property: undefined when there is none, as for every name of an array here. */
  function Get(v: Json, key: string): Json {
    if v.Fields? then Find(v.fields, key) else Undefined
  }

  function Find(fields: seq<Field>, key: string): Json {
    if fields == [] then Undefined
    else if fields[0].key == key then fields[0].value
    else Find(fields[1..], key)
  }

  /** The fee summary's text fields, in a fixed order. */
  function SafeFee(fee: Json, names: seq<string>): (fields: seq<Field>)
    ensures forall i :: 0 <= i < |fields| ==> fields[i].key in names && fields[i].value.Text?
  {
    if names == [] then []
    else if Get(fee, names[0]).Text? then [Field(names[0], Get(fee, names[0]))] + SafeFee(fee, names[1..])
    else SafeFee(fee, names[1..])
  }

  function SafeMetadata(v: Json): Option<Json> {
    if Get(v, "vaOpeningFee").Fields? && SafeFee(Get(v, "vaOpeningFee"), FEE_FIELDS) != []
    then Some(Fields([Field("vaOpeningFee", Fields(SafeFee(Get(v, "vaOpeningFee"), FEE_FIELDS)))]))
    else None
  }

  predicate ForeignAccount(f: Field, customer: string) {
    f.key == "targetAccount" && IsObject(f.value) && Get(f.value, "customerId") != Text(customer)
  }

  function Summary(account: Json): Json {
    Fields([Field("kind", Get(account, "kind")), Field("currency", Get(account, "currency"))])
  }

  function Redacted(v: Json, customer: string): Json
    decreases v, 0
  {
    match v
    case Items(items) => Items(seq(|items|, i requires 0 <= i < |items| => Redacted(items[i], customer)))
    case Fields(fields) => Fields(RedactedFields(fields, customer))
    case _ => v
  }

  /** Field by field: dropped, replaced or kept with a redacted value. */
  function RedactedFields(fields: seq<Field>, customer: string): seq<Field>
    decreases fields, |fields|
  {
    if fields == [] then []
    else
      RedactedFields(fields[..|fields| - 1], customer) + RedactedField(fields[|fields| - 1], customer)
  }

  function RedactedField(f: Field, customer: string): seq<Field>
    decreases f, 0
  {
    if f.key in INTERNAL_FIELDS then []
    else if f.key == "metadata" then
      if SafeMetadata(f.value).Some? then [Field(f.key, SafeMetadata(f.value).value)] else []
    else if ForeignAccount(f, customer) then [Field(f.key, Summary(f.value))]
    else [Field(f.key, Redacted(f.value, customer))]
  }

  /** The recursion over arrays, and over objects into a fresh record. */
  method Redact(v: Json, customer: string) returns (redacted: Json)
    ensures redacted == Redacted(v, customer)
    decreases v
  {
    if v.Items? {
      var items := [];
      var i := 0;
      while i < |v.items|
        invariant 0 <= i <= |v.items| && |items| == i
        invariant forall j :: 0 <= j < i ==> items[j] == Redacted(v.items[j], customer)
      {
        var item := Redact(v.items[i], customer);
        items := items + [item];
        i := i + 1;
      }
      return Items(items);
    }
    if !v.Fields? { return v; }
    var fields := [];
    var i := 0;
    while i < |v.fields|
      invariant 0 <= i <= |v.fields| && fields == RedactedFields(v.fields[..i], customer)
    {
      var field := v.fields[i];
      assert v.fields[..i + 1][..i] == v.fields[..i];
      i := i + 1;
      if field.key in INTERNAL_FIELDS { continue; }
      if field.key == "metadata" {
        var metadata := SafeMetadata(field.value);
        if metadata.Some? { fields := fields + [Field(field.key, metadata.value)]; }
        continue;
      }
      if ForeignAccount(field, customer) {
        fields := fields + [Field(field.key, Summary(field.value))];
        continue;
      }
      var value := Redact(field.value, customer);
      fields := fields + [Field(field.key, value)];
    }
    assert v.fields[..|v.fields|] == v.fields;
    redacted := Fields(fields);
  }

  // ---- what the output shows ----------------------------------------------------------------

  /** A redacted account still shows whose it is. */
  lemma {:induction false} OwnerIsKept(fields: seq<Field>, customer: string, owner: string)
    requires Find(fields, "customerId") == Text(owner)
    ensures Find(RedactedFields(fields, customer), "customerId") == Text(owner)
    decreases |fields|
  {
    var n := |fields| - 1;
    var front, last := RedactedFields(fields[..n], customer), fields[n];
    FindInFront(fields[..n], [last], "customerId");
    assert fields == fields[..n] + [last];
    FindInFront(front, RedactedField(last, customer), "customerId");
    if forall i :: 0 <= i < n ==> fields[i].key != "customerId" {
      NoNewKeys(fields[..n], customer, "customerId");
      assert Find([last], "customerId") == Text(owner);
      assert [last][1..] == [] && last == Field("customerId", Text(owner));
      assert RedactedField(last, customer) == [last];
    } else {
      OwnerIsKept(fields[..n], customer, owner);
      FirstFound(front, "customerId");
    }
  }

  lemma {:induction false} FindInFront(a: seq<Field>, b: seq<Field>, key: string)
    ensures Find(a + b, key) == if exists i :: 0 <= i < |a| && a[i].key == key then Find(a, key) else Find(b, key)
  {
    if a == [] {
      assert a + b == b;
    } else {
      assert (a + b)[1..] == a[1..] + b;
      FindInFront(a[1..], b, key);
    }
  }

  lemma {:induction false} FirstFound(fields: seq<Field>, key: string)
    ensures (exists i :: 0 <= i < |fields| && fields[i].key == key) ||
            Find(fields, key) == Undefined
  {
    if fields != [] { FirstFound(fields[1..], key); }
  }

  lemma {:induction false} NoNewKeys(fields: seq<Field>, customer: string, key: string)
    requires forall i :: 0 <= i < |fields| ==> fields[i].key != key
    ensures forall i :: 0 <= i < |RedactedFields(fields, customer)| ==> RedactedFields(fields, customer)[i].key != key
    decreases |fields|
  {
    if fields != [] { NoNewKeys(fields[..|fields| - 1], customer, key); }
  }

  /** Only these two names, whatever their values. */
  predicate KindAndCurrency(account: Json) {
    account.Fields? && |account.fields| == 2 && account.fields[0].key == "kind" && account.fields[1].key == "currency"
  }

  predicate FieldPresentable(f: Field, customer: string)
    decreases f, 0
  {
    && f.key !in INTERNAL_FIELDS
    && (ForeignAccount(f, customer) ==> KindAndCurrency(f.value))
    && Presentable(f.value, customer)
  }

  /** At every level: no internal field, and of other customers' target accounts only kind and currency. */
  predicate Presentable(v: Json, customer: string)
    decreases v, 0
  {
    match v
    case Items(items) => forall i :: 0 <= i < |items| ==> Presentable(items[i], customer)
    case Fields(fields) => forall i :: 0 <= i < |fields| ==> FieldPresentable(fields[i], customer)
    case _ => true
  }

  /** What of `f` the output copies unredacted, the kind and currency of foreign accounts, is presentable. */
  predicate FieldCopiesPresentable(f: Field, customer: string)
    decreases f, 0
  {
    f.key in INTERNAL_FIELDS || f.key == "metadata"
    || (if ForeignAccount(f, customer)
        then Presentable(Get(f.value, "kind"), customer) && Presentable(Get(f.value, "currency"), customer)
        else CopiesPresentable(f.value, customer))
  }

  predicate CopiesPresentable(v: Json, customer: string)
    decreases v, 0
  {
    match v
    case Items(items) => forall i :: 0 <= i < |items| ==> CopiesPresentable(items[i], customer)
    case Fields(fields) => forall i :: 0 <= i < |fields| ==> FieldCopiesPresentable(fields[i], customer)
    case _ => true
  }

  predicate AllPresentable(fields: seq<Field>, customer: string) {
    forall i :: 0 <= i < |fields| ==> FieldPresentable(fields[i], customer)
  }

  lemma SafeMetadataIsPresentable(v: Json, customer: string)
    requires SafeMetadata(v).Some?
    ensures Presentable(SafeMetadata(v).value, customer)
  {
    var safe := SafeFee(Get(v, "vaOpeningFee"), FEE_FIELDS);
    forall i | 0 <= i < |safe| ensures FieldPresentable(safe[i], customer) {
      assert safe[i].key in FEE_FIELDS && safe[i].value.Text?;
    }
    assert Presentable(Fields(safe), customer);
  }

  /**
   The output is presentable at any depth exactly when the kind and currency of the foreign
   accounts it summarises are: those two values are copied as they are. Text always is.
   */
  lemma {:induction false} PresentableIffCopiesAre(v: Json, customer: string)
    ensures Presentable(Redacted(v, customer), customer) <==> CopiesPresentable(v, customer)
    decreases v, 0
  {
    match v
    case Items(items) =>
      forall i | 0 <= i < |items|
        ensures Presentable(Redacted(items[i], customer), customer) <==> CopiesPresentable(items[i], customer)
      {
        PresentableIffCopiesAre(items[i], customer);
      }
      var redacted := Redacted(v, customer).items;
      assert forall i :: 0 <= i < |items| ==> redacted[i] == Redacted(items[i], customer);
      assert Presentable(Items(redacted), customer) <==>
        forall i :: 0 <= i < |redacted| ==> Presentable(redacted[i], customer);
    case Fields(fields) => FieldsPresentableIff(fields, customer);
    case _ =>
  }

  lemma {:induction false} FieldsPresentableIff(fields: seq<Field>, customer: string)
    ensures AllPresentable(RedactedFields(fields, customer), customer)
       <==> forall i :: 0 <= i < |fields| ==> FieldCopiesPresentable(fields[i], customer)
    decreases fields, |fields|
  {
    if fields != [] {
      var n := |fields| - 1;
      var front, last := RedactedFields(fields[..n], customer), RedactedField(fields[n], customer);
      FieldsPresentableIff(fields[..n], customer);
      FieldPresentableIff(fields[n], customer);
      PresentableConcat(front, last, customer);
    }
  }

  lemma PresentableConcat(a: seq<Field>, b: seq<Field>, customer: string)
    ensures AllPresentable(a + b, customer) <==> AllPresentable(a, customer) && AllPresentable(b, customer)
  {
    assert forall i :: 0 <= i < |a| ==> (a + b)[i] == a[i];
    assert forall i :: 0 <= i < |b| ==> (a + b)[|a| + i] == b[i];
  }

  lemma PresentableSingle(f: Field, customer: string)
    ensures AllPresentable([f], customer) <==> FieldPresentable(f, customer)
  {
    assert [f][0] == f;
  }

  lemma SummaryPresentableIff(account: Json, customer: string)
    ensures Presentable(Summary(account), customer)
       <==> Presentable(Get(account, "kind"), customer) && Presentable(Get(account, "currency"), customer)
    ensures KindAndCurrency(Summary(account))
  {
    var fields := Summary(account).fields;
    assert FieldPresentable(fields[0], customer) <==> Presentable(Get(account, "kind"), customer);
    assert FieldPresentable(fields[1], customer) <==> Presentable(Get(account, "currency"), customer);
  }

  /** A customer's own account, and anything that is no account, is still so after redaction. */
  lemma KeptFieldIsNotForeign(f: Field, customer: string)
    requires !ForeignAccount(f, customer)
    ensures !ForeignAccount(Field(f.key, Redacted(f.value, customer)), customer)
  {
    if f.key == "targetAccount" && f.value.Fields? { OwnerIsKept(f.value.fields, customer, customer); }
  }

  lemma {:induction false} FieldPresentableIff(f: Field, customer: string)
    ensures AllPresentable(RedactedField(f, customer), customer) <==> FieldCopiesPresentable(f, customer)
    decreases f, 0
  {
    if f.key in INTERNAL_FIELDS {
    } else if f.key == "metadata" {
      if SafeMetadata(f.value).Some? {
        SafeMetadataIsPresentable(f.value, customer);
        PresentableSingle(Field(f.key, SafeMetadata(f.value).value), customer);
      }
    } else if ForeignAccount(f, customer) {
      SummaryPresentableIff(f.value, customer);
      PresentableSingle(Field(f.key, Summary(f.value)), customer);
    } else {
      PresentableIffCopiesAre(f.value, customer);
      KeptFieldIsNotForeign(f, customer);
      PresentableSingle(Field(f.key, Redacted(f.value, customer)), customer);
    }
  }

  // ---- what is kept -------------------------------------------------------------------------

  /** No field that is hidden, summarised or somebody else's account, at any depth. */
  predicate FieldUnremarkable(f: Field, customer: string)
    decreases f, 0
  {
    && f.key !in INTERNAL_FIELDS && f.key != "metadata"
    && (f.key == "targetAccount" && IsObject(f.value) ==> Get(f.value, "customerId") == Text(customer))
    && Unremarkable(f.value, customer)
  }

  predicate Unremarkable(v: Json, customer: string)
    decreases v, 0
  {
    match v
    case Items(items) => forall i :: 0 <= i < |items| ==> Unremarkable(items[i], customer)
    case Fields(fields) => forall i :: 0 <= i < |fields| ==> FieldUnremarkable(fields[i], customer)
    case _ => true
  }

  /** Text, numbers and every other value that is not an object or array is shown as it is. */
  lemma PlainValuesAreKept(v: Json, customer: string)
    requires !IsObject(v)
    ensures Redacted(v, customer) == v
  {
  }

  /** A payload with nothing to hide is returned unchanged, every value and every array included. */
  lemma {:induction false} UnremarkableIsUnchanged(v: Json, customer: string)
    requires Unremarkable(v, customer)
    ensures Redacted(v, customer) == v
    decreases v, 0
  {
    match v
    case Items(items) =>
      forall i | 0 <= i < |items| ensures Redacted(items[i], customer) == items[i] {
        UnremarkableIsUnchanged(items[i], customer);
      }
    case Fields(fields) => UnremarkableFieldsAreUnchanged(fields, customer);
    case _ =>
  }

  lemma {:induction false} UnremarkableFieldsAreUnchanged(fields: seq<Field>, customer: string)
    requires forall i :: 0 <= i < |fields| ==> FieldUnremarkable(fields[i], customer)
    ensures RedactedFields(fields, customer) == fields
    decreases fields, |fields|
  {
    if fields != [] {
      var n := |fields| - 1;
      UnremarkableFieldsAreUnchanged(fields[..n], customer);
      assert FieldUnremarkable(fields[n], customer);
      UnremarkableIsUnchanged(fields[n].value, customer);
      assert fields == fields[..n] + [fields[n]];
    }
  }

  /** An array keeps its length and its order. */
  lemma ItemsAreKept(items: seq<Json>, customer: string)
    ensures var shown := Redacted(Items(items), customer);
      && shown.Items? && |shown.items| == |items|
      && forall i :: 0 <= i < |items| ==> shown.items[i] == Redacted(items[i], customer)
  {
  }

  /** What is shown of one field, in terms of its name and its account's owner. */
  predicate ShownAs(f: Field, customer: string, shown: seq<Field>) {
    if f.key in INTERNAL_FIELDS then shown == []
    else if f.key == "metadata" then
      shown == if SafeMetadata(f.value) == None then [] else [Field("metadata", SafeMetadata(f.value).value)]
    else if f.key == "targetAccount" && IsObject(f.value) && Get(f.value, "customerId") != Text(customer) then
      shown == [Field("targetAccount", Fields([Field("kind", Get(f.value, "kind")),
                                               Field("currency", Get(f.value, "currency"))]))]
    else shown == [Field(f.key, Redacted(f.value, customer))]
  }

  /** Field by field, in the order of the payload: what is not hidden keeps its name and its redacted value. */
  lemma FieldsAreKeptInOrder(fields: seq<Field>, customer: string, i: nat) returns (shown: seq<Field>)
    requires i < |fields|
    ensures ShownAs(fields[i], customer, shown)
    ensures RedactedFields(fields, customer)
         == RedactedFields(fields[..i], customer) + shown + RedactedFields(fields[i + 1..], customer)
  {
    shown := RedactedField(fields[i], customer);
    assert fields == fields[..i + 1] + fields[i + 1..];
    FieldsConcat(fields[..i + 1], fields[i + 1..], customer);
    assert fields[..i + 1][..i] == fields[..i];
  }

  /** The fee summary keeps exactly the text fields of these five names. */
  lemma FeeSummaryIsKept(metadata: Json, name: string)
    ensures var fee := Get(metadata, "vaOpeningFee");
      var texts := name in {"requestId", "channelCode", "bankName", "version", "reservedAt"}
                   && fee.Fields? && Get(fee, name).Text?;
      match SafeMetadata(metadata)
      case None => !texts
      case Some(shown) =>
        && shown.Fields? && |shown.fields| == 1 && shown.fields[0].key == "vaOpeningFee" && fee.Fields?
        && Get(shown.fields[0].value, name) == if texts then Get(fee, name) else Undefined
  {
    FeeNames(name);
    SafeFeeShows(Get(metadata, "vaOpeningFee"), name);
  }

  /** There is a summary exactly if one of the five is a text. */
  lemma FeeSummaryIffSomeText(metadata: Json)
    ensures var fee := Get(metadata, "vaOpeningFee");
      SafeMetadata(metadata).Some? <==>
        fee.Fields? && exists name :: name in FEE_FIELDS && Get(fee, name).Text?
  {
    SafeFeeIsEmptyIff(Get(metadata, "vaOpeningFee"), FEE_FIELDS);
  }

  lemma {:induction false} SafeFeeIsEmptyIff(fee: Json, names: seq<string>)
    ensures SafeFee(fee, names) == [] <==> forall name :: name in names ==> !Get(fee, name).Text?
  {
    if names != [] {
      SafeFeeIsEmptyIff(fee, names[1..]);
      assert forall name :: name in names <==> name == names[0] || name in names[1..];
    }
  }

  lemma FeeNames(name: string)
    ensures name in FEE_FIELDS <==> name in {"requestId", "channelCode", "bankName", "version", "reservedAt"}
  {
  }

  lemma SafeFeeShows(fee: Json, name: string)
    ensures Find(SafeFee(fee, FEE_FIELDS), name)
         == if name in FEE_FIELDS && Get(fee, name).Text? then Get(fee, name) else Undefined
  {
    assert FEE_FIELDS[0..] == FEE_FIELDS;
    if name in FEE_FIELDS {
      var i :| 0 <= i < |FEE_FIELDS| && FEE_FIELDS[i] == name;
      FindSafe(fee, FEE_FIELDS, 0, i);
    } else {
      NotFound(SafeFee(fee, FEE_FIELDS), name);
    }
  }

  // ---- plain values -------------------------------------------------------------------------

  /** Wherever a foreign account is summarised, its kind and its currency are no objects. */
  predicate FieldCopiesPlain(f: Field, customer: string)
    decreases f, 0
  {
    f.key in INTERNAL_FIELDS || f.key == "metadata"
    || (if ForeignAccount(f, customer)
        then !IsObject(Get(f.value, "kind")) && !IsObject(Get(f.value, "currency"))
        else CopiesPlain(f.value, customer))
  }

  predicate CopiesPlain(v: Json, customer: string)
    decreases v, 0
  {
    match v
    case Items(items) => forall i :: 0 <= i < |items| ==> CopiesPlain(items[i], customer)
    case Fields(fields) => forall i :: 0 <= i < |fields| ==> FieldCopiesPlain(fields[i], customer)
    case _ => true
  }

  lemma {:induction false} PlainCopiesArePresentable(v: Json, customer: string)
    requires CopiesPlain(v, customer)
    ensures CopiesPresentable(v, customer)
    decreases v
  {
    match v
    case Items(items) =>
      forall i | 0 <= i < |items| ensures CopiesPresentable(items[i], customer) {
        PlainCopiesArePresentable(items[i], customer);
      }
    case Fields(fields) =>
      forall i | 0 <= i < |fields| ensures FieldCopiesPresentable(fields[i], customer) {
        assert FieldCopiesPlain(fields[i], customer);
        if CopiesPlain(fields[i].value, customer) { PlainCopiesArePresentable(fields[i].value, customer); }
      }
    case _ =>
  }

  /** As long as kinds and currencies of accounts are plain values, the output is presentable at any depth. */
  lemma PlainPayloadIsPresentable(v: Json, customer: string)
    requires CopiesPlain(v, customer)
    ensures Presentable(Redacted(v, customer), customer)
  {
    PlainCopiesArePresentable(v, customer);
    PresentableIffCopiesAre(v, customer);
  }

  /** An account whose kind is an object: what that object holds is shown, whatever it is. */
  const ObjectKind :=
    Fields([Field("targetAccount", Fields([Field("kind", Fields([Field("maker", Text("someone"))]))]))])

  lemma ObjectKindIsShown(customer: string)
    ensures !Presentable(Redacted(ObjectKind, customer), customer)
  {
    var account := ObjectKind.fields[0].value;
    var kind := Get(account, "kind");
    assert kind == Fields([Field("maker", Text("someone"))]);
    assert !FieldPresentable(kind.fields[0], customer);
    assert Get(account, "customerId") == Undefined;
    assert !FieldCopiesPresentable(ObjectKind.fields[0], customer);
    PresentableIffCopiesAre(ObjectKind, customer);
  }

  // ---- a second redaction changes nothing ---------------------------------------------------

  lemma {:induction false} SafeFeeAgain(fee: Json, names: seq<string>, from: nat)
    requires from <= |names| && forall i, j :: 0 <= i < j < |names| ==> names[i] != names[j]
    ensures SafeFee(Fields(SafeFee(fee, names[from..])), names[from..]) == SafeFee(fee, names[from..])
    decreases |names| - from
  {
    var safe := SafeFee(fee, names[from..]);
    forall i | from <= i < |names|
      ensures Find(safe, names[i]) == if Get(fee, names[i]).Text? then Get(fee, names[i]) else Undefined
    {
      FindSafe(fee, names, from, i);
    }
    SameReads(Fields(safe), fee, names, from);
  }

  lemma {:induction false} FindSafe(fee: Json, names: seq<string>, from: nat, i: nat)
    requires from <= i < |names| && forall i, j :: 0 <= i < j < |names| ==> names[i] != names[j]
    ensures Find(SafeFee(fee, names[from..]), names[i])
         == if Get(fee, names[i]).Text? then Get(fee, names[i]) else Undefined
    decreases |names| - from
  {
    assert names[from..][1..] == names[from + 1..] && names[from..][0] == names[from];
    var rest := SafeFee(fee, names[from + 1..]);
    if Get(fee, names[from]).Text? {
      assert ([Field(names[from], Get(fee, names[from]))] + rest)[1..] == rest;
    }
    if from < i {
      FindSafe(fee, names, from + 1, i);
    } else {
      NotFound(rest, names[i]) by {
        forall k | 0 <= k < |rest| ensures rest[k].key != names[i] {
          assert rest[k].key in names[from + 1..];
        }
      }
    }
  }

  lemma {:induction false} NotFound(fields: seq<Field>, key: string)
    requires forall k :: 0 <= k < |fields| ==> fields[k].key != key
    ensures Find(fields, key) == Undefined
  {
    if fields != [] { NotFound(fields[1..], key); }
  }

  lemma {:induction false} SameReads(a: Json, b: Json, names: seq<string>, from: nat)
    requires from <= |names|
    requires forall i :: from <= i < |names| ==>
      Get(a, names[i]) == if Get(b, names[i]).Text? then Get(b, names[i]) else Undefined
    ensures SafeFee(a, names[from..]) == SafeFee(b, names[from..])
    decreases |names| - from
  {
    if from < |names| {
      assert names[from..][1..] == names[from + 1..] && names[from..][0] == names[from];
      SameReads(a, b, names, from + 1);
    }
  }

  lemma SafeMetadataAgain(v: Json)
    requires SafeMetadata(v).Some?
    ensures SafeMetadata(SafeMetadata(v).value) == SafeMetadata(v)
  {
    var fee := Get(v, "vaOpeningFee");
    assert FEE_FIELDS[0..] == FEE_FIELDS;
    SafeFeeAgain(fee, FEE_FIELDS, 0);
    assert Get(SafeMetadata(v).value, "vaOpeningFee") == Fields(SafeFee(fee, FEE_FIELDS));
  }

  lemma SummaryAgain(account: Json)
    ensures Summary(Summary(account)) == Summary(account) && Get(Summary(account), "customerId") == Undefined
  {
    var fields := Summary(account).fields;
    assert fields[1..][0] == fields[1] && fields[1..][1..] == [];
    assert Find(fields, "currency") == Find(fields[1..], "currency");
    assert Find(fields, "customerId") == Find(fields[1..], "customerId") == Find([], "customerId");
  }

  lemma {:induction false} FieldsConcat(a: seq<Field>, b: seq<Field>, customer: string)
    ensures RedactedFields(a + b, customer) == RedactedFields(a, customer) + RedactedFields(b, customer)
    decreases |b|
  {
    if b == [] {
      assert a + b == a;
    } else {
      assert (a + b)[..|a + b| - 1] == a + b[..|b| - 1];
      FieldsConcat(a, b[..|b| - 1], customer);
    }
  }

  /** Redacting a redacted payload again changes nothing. */
  lemma {:induction false} RedactingTwiceIsOnce(v: Json, customer: string)
    ensures Redacted(Redacted(v, customer), customer) == Redacted(v, customer)
    decreases v, 0
  {
    match v
    case Items(items) =>
      forall i | 0 <= i < |items|
        ensures Redacted(Redacted(items[i], customer), customer) == Redacted(items[i], customer)
      {
        RedactingTwiceIsOnce(items[i], customer);
      }
    case Fields(fields) => FieldsTwice(fields, customer);
    case _ =>
  }

  lemma {:induction false} FieldsTwice(fields: seq<Field>, customer: string)
    ensures RedactedFields(RedactedFields(fields, customer), customer) == RedactedFields(fields, customer)
    decreases fields, |fields|
  {
    if fields != [] {
      var n := |fields| - 1;
      FieldsTwice(fields[..n], customer);
      FieldTwice(fields[n], customer);
      FieldsConcat(RedactedFields(fields[..n], customer), RedactedField(fields[n], customer), customer);
    }
  }

  lemma {:induction false} FieldTwice(f: Field, customer: string)
    ensures RedactedFields(RedactedField(f, customer), customer) == RedactedField(f, customer)
    decreases f, 0
  {
    if RedactedField(f, customer) != [] {
      var g := RedactedField(f, customer)[0];
      assert [g][..0] == [];
      assert RedactedFields([g], customer) == RedactedFields([], customer) + RedactedField(g, customer);
      if f.key == "metadata" {
        SafeMetadataAgain(f.value);
      } else if ForeignAccount(f, customer) {
        SummaryAgain(f.value);
      } else {
        RedactingTwiceIsOnce(f.value, customer);
        KeptFieldIsNotForeign(f, customer);
      }
    }
  }
}
