/**
 * The signature record an editing session holds, and the pure updates the session
 * applies to it: setting one text field, and appending, replacing and removing an
 * entry of the ordered position list.
 */
module SignatureData {
  import opened Optional
  import opened JsString

  /** One own property of the `social` object; for the non-numeric keys the app uses,
      `Object.entries` lists them in insertion order, so the object is an ordered list
      of entries. */
  datatype SocialEntry = SocialEntry(key: string, url: Option<string>)

  /** The record. `phone` is a plain string in the session (it starts as `''`);
      `orcid`, `website` and `isCiaraMemb` are read by the preview and the validator
      but no session operation sets them. */
  datatype Signature = Signature(
    fullName: string,
    email: string,
    phone: string,
    positions: seq<string>,
    department: string,
    campus: string,
    additionalLink: Option<string>,
    additionalLinkText: Option<string>,
    social: Option<seq<SocialEntry>>,
    orcid: Option<string>,
    website: Option<string>,
    isCiaraMemb: Option<bool>)

  /** The state a session starts in and returns to on reset. */
  const Empty: Signature :=
    Signature("", "", "", [""], "", "", None, None, None, None, None, None)

  /** An optional string is truthy when it is present and not empty. */
  predicate TruthyOpt(o: Option<string>) {
    o.Some? && o.value != ""
  }

  /** `social?.[key]`: the url of the entry named `key`, if the object has one. */
  function SocialUrl(social: Option<seq<SocialEntry>>, key: string): (r: Option<string>)
    ensures r.Some? ==> social.Some? && exists i :: 0 <= i < |social.value| && social.value[i] == SocialEntry(key, r)
    ensures social.Some? && (forall i :: 0 <= i < |social.value| ==> social.value[i].key != key) ==> r.None?
  {
    if social.None? then None else EntryUrl(social.value, key)
  }

  function EntryUrl(entries: seq<SocialEntry>, key: string): (r: Option<string>)
    ensures r.Some? ==> exists i :: 0 <= i < |entries| && entries[i] == SocialEntry(key, r)
    ensures (forall i :: 0 <= i < |entries| ==> entries[i].key != key) ==> r.None?
  {
    if entries == [] then None
    else if entries[0].key == key then entries[0].url
    else EntryUrl(entries[1..], key)
  }

  /** The url of the first entry named `key` is the one found. */
  lemma {:induction false} EntryUrlFirst(entries: seq<SocialEntry>, key: string, i: nat)
    requires i < |entries| && entries[i].key == key
    requires forall j :: 0 <= j < i ==> entries[j].key != key
    ensures EntryUrl(entries, key) == entries[i].url
  {
    if i > 0 {
      EntryUrlFirst(entries[1..], key, i - 1);
    }
  }

  /** `social?.[key]` on an object that has the key gives the url of its first entry
      under that key. */
  lemma SocialUrlFirst(social: Option<seq<SocialEntry>>, key: string, i: nat)
    requires social.Some? && i < |social.value| && social.value[i].key == key
    requires forall j :: 0 <= j < i ==> social.value[j].key != key
    ensures SocialUrl(social, key) == social.value[i].url
  {
    EntryUrlFirst(social.value, key, i);
  }

  /** `positions.filter(pos => pos.trim())`: the positions that are not blank, in order. */
  function FilledPositions(ps: seq<string>): (r: seq<string>)
    ensures |r| <= |ps|
    ensures forall p :: p in r <==> p in ps && !IsBlank(p)
  {
    if ps == [] then []
    else (if IsBlank(ps[0]) then [] else [ps[0]]) + FilledPositions(ps[1..])
  }

  /** The filter keeps the relative order: filtering a concatenation concatenates the
      filtered parts. */
  lemma {:induction false} FilledPositionsConcat(a: seq<string>, b: seq<string>)
    ensures FilledPositions(a + b) == FilledPositions(a) + FilledPositions(b)
  {
    if a != [] {
      assert (a + b)[1..] == a[1..] + b;
      FilledPositionsConcat(a[1..], b);
    } else {
      assert a + b == b;
    }
  }

  /** Nothing survives the filter exactly when every position is blank. */
  lemma FilledPositionsEmpty(ps: seq<string>)
    ensures FilledPositions(ps) == [] <==> forall i :: 0 <= i < |ps| ==> IsBlank(ps[i])
  {
  }

  /** The text fields `updateField` can set (keys of the record whose value is a string). */
  datatype TextField = FullName | Email | Phone | Department | Campus | AdditionalLink | AdditionalLinkText

  /** The value a text field holds; the optional ones read as absent when unset. */
  function FieldText(d: Signature, f: TextField): Option<string> {
    match f
    case FullName => Some(d.fullName)
    case Email => Some(d.email)
    case Phone => Some(d.phone)
    case Department => Some(d.department)
    case Campus => Some(d.campus)
    case AdditionalLink => d.additionalLink
    case AdditionalLinkText => d.additionalLinkText
  }

  /** `{...prev, [field]: value}`: field `f` now holds `v`; nothing else changes. */
  function WithField(d: Signature, f: TextField, v: string): (r: Signature)
    ensures FieldText(r, f) == Some(v)
    ensures forall g :: g != f ==> FieldText(r, g) == FieldText(d, g)
    ensures r.positions == d.positions && r.social == d.social && r.orcid == d.orcid
    ensures r.website == d.website && r.isCiaraMemb == d.isCiaraMemb
  {
    match f
    case FullName => d.(fullName := v)
    case Email => d.(email := v)
    case Phone => d.(phone := v)
    case Department => d.(department := v)
    case Campus => d.(campus := v)
    case AdditionalLink => d.(additionalLink := Some(v))
    case AdditionalLinkText => d.(additionalLinkText := Some(v))
  }

  /** `[...positions, '']`: one blank slot more, earlier slots untouched; there is no cap. */
  function AppendBlank(ps: seq<string>): (r: seq<string>)
    ensures |r| == |ps| + 1 && r[..|ps|] == ps && r[|ps|] == ""
  {
    ps + [""]
  }

  /** `positions.map((pos, i) => i === index ? value : pos)`, walked index by index. */
  function ReplaceAt(ps: seq<string>, index: int, value: string): (r: seq<string>)
    ensures |r| == |ps|
    ensures forall i :: 0 <= i < |ps| ==> r[i] == (if i == index then value else ps[i])
  {
    if ps == [] then []
    else ReplaceAt(ps[..|ps| - 1], index, value) + [if |ps| - 1 == index then value else ps[|ps| - 1]]
  }

  /** `positions.filter((_, i) => i !== index)`, walked index by index. */
  function RemoveAt(ps: seq<string>, index: int): (r: seq<string>)
    ensures 0 <= index < |ps| ==> r == ps[..index] + ps[index + 1..]
    ensures !(0 <= index < |ps|) ==> r == ps
  {
    if ps == [] then []
    else
      var init := ps[..|ps| - 1];
      var rest := RemoveAt(init, index);
      if |ps| - 1 == index then
        assert rest == init;
        rest
      else
        assert 0 <= index < |ps| - 1 ==> init[..index] + init[index + 1..] + [ps[|ps| - 1]] == ps[..index] + ps[index + 1..];
        assert !(0 <= index < |ps|) ==> init + [ps[|ps| - 1]] == ps;
        rest + [ps[|ps| - 1]]
  }

  /** Removing slot `index` re-indexes the later slots down by one and keeps their order. */
  lemma RemoveAtShifts(ps: seq<string>, index: int, j: int)
    requires 0 <= index < |ps| && 0 <= j < |ps| - 1
    ensures |RemoveAt(ps, index)| == |ps| - 1
    ensures RemoveAt(ps, index)[j] == if j < index then ps[j] else ps[j + 1]
  {
  }

  /** There is no at-least-one guard: removing the only slot leaves no slot at all. */
  lemma RemoveLastSlotEmpties(p: string)
    ensures RemoveAt([p], 0) == []
  {
  }

  /** Appending a blank slot and removing it again gives back the list. */
  lemma AppendThenRemove(ps: seq<string>)
    ensures RemoveAt(AppendBlank(ps), |ps|) == ps
  {
    assert AppendBlank(ps)[..|ps|] == ps;
  }

  /** Writing back the old value of a slot undoes a replacement. */
  lemma ReplaceRoundTrip(ps: seq<string>, index: int, value: string)
    requires 0 <= index < |ps|
    ensures ReplaceAt(ReplaceAt(ps, index, value), index, ps[index]) == ps
  {
    var r := ReplaceAt(ReplaceAt(ps, index, value), index, ps[index]);
    assert forall i :: 0 <= i < |ps| ==> r[i] == ps[i];
  }
}
