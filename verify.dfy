/** The usage-record verifier: a record is accepted when the decoder turns
    it into a dictionary whose `record_id` is present and not None; any
    failure of the decoder, and the KeyError of a missing `record_id`, make
    it rejected. */
module UrVerify {
  import opened Wrappers
  import opened Calendar
  import opened UrElements
  import opened UrParser

  /** `verify(ur)`: the decoder runs without the optional insert arguments. */
  function Verify(mode: Mode, doc: Element): (ok: bool)
    ensures ok ==> doc.tag == JobUsageRecord && HasTag(doc.children, RecordIdentity)
  {
    match XmlToDict(mode, doc, None, None, None)
    case Failure(_) => false
    case Success(d) =>
      XmlToDictRecordIdValue(mode, doc, None, None, None);
      record_id in d && d[record_id] != DNone
  }

  /** A record is accepted exactly when it decodes and its last
      `RecordIdentity` child carries a `recordId` attribute. */
  lemma VerifyAccepts(mode: Mode, doc: Element)
    ensures Verify(mode, doc) <==>
      XmlToDict(mode, doc, None, None, None).Success? && LastOf(doc.children, RecordIdentity).Some?
      && RecordId in LastOf(doc.children, RecordIdentity).value.attrs
  {
    if XmlToDict(mode, doc, None, None, None).Success? {
      XmlToDictRecordIdValue(mode, doc, None, None, None);
    }
  }

  /** A record without `RecordIdentity` is rejected: the lookup of
      `record_id` raises KeyError. */
  lemma VerifyNoRecordIdentity(mode: Mode, doc: Element)
    requires !HasTag(doc.children, RecordIdentity)
    ensures !Verify(mode, doc)
  {
  }

  /** A root other than `JobUsageRecord` fails the decoder's assertion and is rejected. */
  lemma VerifyWrongRoot(mode: Mode, doc: Element)
    requires doc.tag != JobUsageRecord
    ensures !Verify(mode, doc)
  {
  }

  /** A record whose decoding succeeds and whose every `RecordIdentity`
      child, of which there is at least one, carries a `recordId` is accepted. */
  lemma VerifyWellFormed(mode: Mode, doc: Element)
    requires XmlToDict(mode, doc, None, None, None).Success?
    requires HasTag(doc.children, RecordIdentity)
    requires forall i :: 0 <= i < |doc.children| && doc.children[i].tag == RecordIdentity ==>
                         RecordId in doc.children[i].attrs
    ensures Verify(mode, doc)
  {
    VerifyAccepts(mode, doc);
  }

  /** What the verifier accepts with reporting raising it also accepts
      without, and the other way round is not so. */
  lemma VerifyModes(doc: Element)
    ensures Verify(AsWritten, doc) ==> Verify(Intended, doc)
  {
    XmlToDictAgrees(doc, None, None, None);
  }

  /** A minimal accepted record: a `RecordIdentity` with an identifier and a
      creation time the encoder writes. */
  function MinimalRecord(id: string, created: Tm, extra: seq<Element>): Element
    requires ValidTm(created) && created.year >= 1900 && created.second <= 59
  {
    var ri := Element(RecordIdentity,
                      map[RecordId := id, CreateTime := Strftime(IsoFormat, created).value + "Z"], None, []);
    Element(JobUsageRecord, map[], None, [ri] + extra)
  }

  /** The `RecordIdentity` child of such a record decodes in both modes. */
  lemma MinimalIdentityStep(mode: Mode, id: string, created: Tm)
    requires ValidTm(created) && created.year >= 1900 && created.second <= 59
    ensures var ri := MinimalRecord(id, created, []).children[0];
      Step(mode, map[], ri).Success? && record_id in Step(mode, map[], ri).value
      && Step(mode, map[], ri).value[record_id] == DStr(id)
  {
    var t := Strftime(IsoFormat, created).value + "Z";
    ParseIsoDateTimeIso(mode, created);
    IdentityOfText(mode, id, t);
  }

  /** A `RecordIdentity` with identifier `id` and a creation time that decodes. */
  lemma IdentityOfText(mode: Mode, id: string, t: string)
    requires ParseIsoDateTime(mode, Some(t)).Success?
    ensures var ri := Element(RecordIdentity, map[RecordId := id, CreateTime := t], None, []);
      Step(mode, map[], ri).Success? && record_id in Step(mode, map[], ri).value
      && Step(mode, map[], ri).value[record_id] == DStr(id)
  {
    var ri := Element(RecordIdentity, map[RecordId := id, CreateTime := t], None, []);
    assert GetAttr(ri, CreateTime) == Some(t);
    assert GetAttr(ri, RecordId) == Some(id);
    IdentityStep(mode, map[], ri);
  }

  /** The record itself is accepted in both modes. */
  lemma MinimalRecordAccepted(mode: Mode, id: string, created: Tm)
    requires ValidTm(created) && created.year >= 1900 && created.second <= 59
    ensures Verify(mode, MinimalRecord(id, created, []))
  {
    var doc := MinimalRecord(id, created, []);
    MinimalIdentityStep(mode, id, created);
    assert doc.children[..0] == [];
    assert Children(mode, map[], doc.children).Success?;
    assert InsertKeys(None, None, None) == Success(map[]);
    VerifyAccepts(mode, doc);
  }

  lemma ChildrenSnoc(mode: Mode, r: Dict, es: seq<Element>, e: Element)
    ensures Children(mode, r, es + [e]) == match Children(mode, r, es)
                                           case Success(r1) => Step(mode, r1, e)
                                           case Failure(x) => Failure(x)
  {
    assert (es + [e])[..|es|] == es;
  }

  /** The loop over two children: the second is decoded into what the first left. */
  lemma ChildrenPair(mode: Mode, r: Dict, a: Element, b: Element)
    ensures Children(mode, r, [a, b]) == match Step(mode, r, a)
                                         case Success(r1) => Step(mode, r1, b)
                                         case Failure(x) => Failure(x)
  {
    assert [a, b] == [a] + [b];
    assert [a] == [] + [a];
    ChildrenSnoc(mode, r, [], a);
    ChildrenSnoc(mode, r, [a], b);
  }

  /** A `KSI2K` duration is only warned about, which raises in the decoder as written. */
  lemma WarnedStep(mode: Mode, r: Dict, w: Element)
    requires w.tag == Ksi2kWallDuration
    ensures Step(mode, r, w) == Logged(mode, r)
  {
  }

  /** The decoder as written fails on a record whose identity decodes,
      followed by an element it only warns about. */
  lemma WarnedFailsAsWritten(ri: Element, w: Element)
    requires Step(AsWritten, map[], ri).Success?
    requires w.tag == Ksi2kWallDuration
    ensures Children(AsWritten, map[], [ri, w]).Failure?
  {
    ChildrenPair(AsWritten, map[], ri, w);
    WarnedStep(AsWritten, Step(AsWritten, map[], ri).value, w);
  }

  /** The intended decoder passes over the warned element. */
  lemma WarnedPassesIntended(ri: Element, w: Element)
    requires Step(Intended, map[], ri).Success?
    requires w.tag == Ksi2kWallDuration
    ensures Children(Intended, map[], [ri, w]).Success?
  {
    ChildrenPair(Intended, map[], ri, w);
    WarnedStep(Intended, Step(Intended, map[], ri).value, w);
  }

  /** A record whose identity decodes, followed by an element the decoder
      only warns about, is accepted exactly when warning does not raise. */
  lemma WarnedAfterIdentity(ri: Element, w: Element)
    requires ri.tag == RecordIdentity && RecordId in ri.attrs
    requires Step(AsWritten, map[], ri).Success? && Step(Intended, map[], ri).Success?
    requires w.tag == Ksi2kWallDuration
    ensures var doc := Element(JobUsageRecord, map[], None, [ri, w]);
      !Verify(AsWritten, doc) && Verify(Intended, doc)
  {
    var doc := Element(JobUsageRecord, map[], None, [ri, w]);
    WarnedFailsAsWritten(ri, w);
    WarnedPassesIntended(ri, w);
    assert InsertKeys(None, None, None) == Success(map[]);
    VerifyAccepts(Intended, doc);
    assert LastOf(doc.children, RecordIdentity) == Some(ri);
  }

  /** The decoder as written turns its own warning about a `KSI2K` duration
      into a TypeError, so the verifier rejects a record the intended decoder
      accepts. */
  lemma Ksi2kRejectedAsWritten(id: string, created: Tm)
    requires ValidTm(created) && created.year >= 1900 && created.second <= 59
    ensures var doc := MinimalRecord(id, created, [Element(Ksi2kWallDuration, map[], Some("PT1S"), [])]);
      !Verify(AsWritten, doc) && Verify(Intended, doc)
  {
    var k := Element(Ksi2kWallDuration, map[], Some("PT1S"), []);
    var doc := MinimalRecord(id, created, [k]);
    var ri := MinimalRecord(id, created, []).children[0];
    assert doc == Element(JobUsageRecord, map[], None, [ri, k]);
    MinimalIdentityStep(AsWritten, id, created);
    MinimalIdentityStep(Intended, id, created);
    WarnedAfterIdentity(ri, k);
  }
}
