/**
 * The `POST /submit-form` handler: normalising the member fields into an ordered
 * member list, building the family record and answering after the save.
 */
module Registration {
  import opened Wrappers
  import opened JsValues
  import opened Dates
  import opened Family

  /** How many members the form declares: the length of a list, one for a non-empty string, none otherwise. */
  function MemberCount(name: Field): nat {
    match name
    case Seq(xs) => |xs|
    case Scalar(s) => if s == "" then 0 else 1
    case Absent => 0
  }

  /** The list branch throws: there is at least one member and some member field is missing altogether. */
  ghost predicate MemberBuildThrows(b: FormBody) {
    b.memberName.Seq? && |b.memberName.items| > 0 &&
    (b.relation.Absent? || b.age.Absent? || b.maritalStatus.Absent? ||
     b.bloodGroup.Absent? || b.qualification.Absent? || b.occupation.Absent?)
  }

  /** `m` is member `i` of the list branch: every field is the corresponding body field read at index `i`. */
  ghost predicate IndexedMember(b: FormBody, parseInt: IntParser, i: nat, m: MemberRecord) {
    b.memberName.Seq? && i < |b.memberName.items| &&
    m.name == Scalar(b.memberName.items[i]) &&
    Index(b.relation, i) == Success(m.relation) &&
    Index(b.age, i).Success? && m.age == ParseIntOf(parseInt, Index(b.age, i).value) &&
    Index(b.maritalStatus, i) == Success(m.maritalStatus) &&
    Index(b.bloodGroup, i) == Success(m.bloodGroup) &&
    Index(b.qualification, i) == Success(m.qualification) &&
    Index(b.occupation, i) == Success(m.occupation)
  }

  /** `m` is the single member of the string branch: the body fields themselves, unindexed. */
  ghost predicate ScalarMember(b: FormBody, parseInt: IntParser, m: MemberRecord) {
    m.name == b.memberName &&
    m.relation == b.relation &&
    m.age == ParseIntOf(parseInt, b.age) &&
    m.maritalStatus == b.maritalStatus &&
    m.bloodGroup == b.bloodGroup &&
    m.qualification == b.qualification &&
    m.occupation == b.occupation
  }

  /** `ms` is the member list the form declares. */
  ghost predicate MembersFor(b: FormBody, parseInt: IntParser, ms: seq<MemberRecord>) {
    |ms| == MemberCount(b.memberName) &&
    (b.memberName.Seq? ==> forall i :: 0 <= i < |ms| ==> IndexedMember(b, parseInt, i, ms[i])) &&
    (b.memberName.Scalar? ==> forall i :: 0 <= i < |ms| ==> ScalarMember(b, parseInt, ms[i]))
  }

  /** The object literal pushed for index `i`, its properties evaluated in source order. */
  function MemberAt(b: FormBody, parseInt: IntParser, i: nat): (r: Result<MemberRecord, JsError>)
    requires b.memberName.Seq? && i < |b.memberName.items|
    ensures r.Failure? <==>
      b.relation.Absent? || b.age.Absent? || b.maritalStatus.Absent? ||
      b.bloodGroup.Absent? || b.qualification.Absent? || b.occupation.Absent?
    ensures r.Failure? ==> r.error == ReadOfUndefined(i)
    ensures r.Success? ==> IndexedMember(b, parseInt, i, r.value)
  {
    var relation :- Index(b.relation, i);
    var age :- Index(b.age, i);
    var maritalStatus :- Index(b.maritalStatus, i);
    var bloodGroup :- Index(b.bloodGroup, i);
    var qualification :- Index(b.qualification, i);
    var occupation :- Index(b.occupation, i);
    Success(MemberRecord(Scalar(b.memberName.items[i]), relation, ParseIntOf(parseInt, age),
                         maritalStatus, bloodGroup, qualification, occupation))
  }

  /**
   * Builds `members` by pushing one record per index of a `memberName` list, or one record
   * from the unindexed fields for a non-empty `memberName` string. A missing member field
   * throws on the first index.
   */
  method BuildMembers(b: FormBody, parseInt: IntParser) returns (r: Result<seq<MemberRecord>, JsError>)
    ensures r.Failure? <==> MemberBuildThrows(b)
    ensures r.Failure? ==> r.error == ReadOfUndefined(0)
    ensures r.Success? ==> MembersFor(b, parseInt, r.value)
  {
    var members: seq<MemberRecord> := [];
    if b.memberName.Seq? {
      var names := b.memberName.items;
      var i := 0;
      while i < |names|
        invariant 0 <= i <= |names|
        invariant |members| == i
        invariant i > 0 ==> !MemberBuildThrows(b)
        invariant forall k :: 0 <= k < i ==> IndexedMember(b, parseInt, k, members[k])
      {
        var m :- MemberAt(b, parseInt, i);
        members := members + [m];
        i := i + 1;
      }
    } else if Truthy(b.memberName) {
      members := members + [MemberRecord(b.memberName, b.relation, ParseIntOf(parseInt, b.age),
                                         b.maritalStatus, b.bloodGroup, b.qualification, b.occupation)];
    }
    r := Success(members);
  }

  /** `req.file?.path || ''`: the uploaded file's path, or the empty string. */
  function ProfileImage(file: Option<string>): (p: string)
    ensures p == (if file.Some? then file.value else "")
  {
    if file.Some? && file.value != "" then file.value else ""
  }

  /** The record handed to the store: head fields copied from the body, `dob` parsed, status pending. */
  function NewFamily(b: FormBody, file: Option<string>, parseDate: DateParser, members: seq<MemberRecord>): (r: FamilyRecord)
    ensures r.status == Pending
    ensures r.members == members
    ensures r.profileImage == (if file.Some? then file.value else "")
  {
    FamilyRecord(
      profileImage := ProfileImage(file),
      familyHead := b.value,
      gender := b.gender,
      dob := NewDate(parseDate, b.dob),
      phone := b.phone,
      email := b.email,
      locality := b.locality,
      city := b.city,
      occupation := b.occupation,
      gotra := b.gotra,
      nativePlace := b.nativePlace,
      bloodGroup := b.bloodGroup,
      address := b.address,
      members := members,
      status := Pending)
  }

  const RegisteredText := "\U{2705} Registered! Please wait for admin approval."

  /** The answer to a failed registration: status 500 and the error's message. */
  function ErrorResponse(message: string): Response {
    Send(500, "Error: " + message)
  }

  /**
   * The whole handler. `file` is the uploaded file's path, if any; `save` is the store's
   * verdict on a record (`None` when it was saved, else the failure message). `record` is
   * the record handed to `save`, `None` when the handler threw before building one.
   */
  method Submit(b: FormBody, file: Option<string>, parseInt: IntParser, parseDate: DateParser,
                save: FamilyRecord -> Option<string>)
    returns (resp: Response, record: Option<FamilyRecord>)
    ensures record.None? <==> MemberBuildThrows(b)
    ensures record.None? ==> resp == ErrorResponse(ErrorMessage(ReadOfUndefined(0)))
    ensures record.Some? ==>
      var rec := record.value;
      rec.status == Pending &&
      rec.profileImage == (if file.Some? then file.value else "") &&
      MembersFor(b, parseInt, rec.members) &&
      rec.familyHead == b.value && rec.gender == b.gender &&
      rec.dob == NewDate(parseDate, b.dob) && rec.phone == b.phone &&
      rec.email == b.email && rec.locality == b.locality && rec.city == b.city &&
      rec.occupation == b.occupation && rec.gotra == b.gotra &&
      rec.nativePlace == b.nativePlace && rec.bloodGroup == b.bloodGroup &&
      rec.address == b.address
    ensures record.Some? ==>
      resp == (match save(record.value)
               case None => Send(200, RegisteredText)
               case Some(message) => ErrorResponse(message))
  {
    var members := BuildMembers(b, parseInt);
    if members.Failure? {
      return ErrorResponse(ErrorMessage(members.error)), None;
    }
    var family := NewFamily(b, file, parseDate, members.value);
    record := Some(family);
    var saved := save(family);
    if saved.Some? {
      resp := ErrorResponse(saved.value);
    } else {
      resp := Send(200, RegisteredText);
    }
  }

  /** The member list is determined by the form: two lists that both meet the description are equal. */
  lemma MembersForDeterminate(b: FormBody, parseInt: IntParser, ms1: seq<MemberRecord>, ms2: seq<MemberRecord>)
    requires MembersFor(b, parseInt, ms1) && MembersFor(b, parseInt, ms2)
    ensures ms1 == ms2
  {
  }

  /** With parallel lists long enough, member `i` is made of the `i`-th element of each list. */
  lemma ParallelListsMember(b: FormBody, parseInt: IntParser, ms: seq<MemberRecord>, i: nat)
    requires MembersFor(b, parseInt, ms)
    requires b.memberName.Seq? && b.relation.Seq? && b.age.Seq? && b.maritalStatus.Seq? &&
             b.bloodGroup.Seq? && b.qualification.Seq? && b.occupation.Seq?
    requires i < |b.memberName.items| && i < |b.relation.items| && i < |b.age.items| &&
             i < |b.maritalStatus.items| && i < |b.bloodGroup.items| &&
             i < |b.qualification.items| && i < |b.occupation.items|
    ensures i < |ms|
    ensures ms[i] == MemberRecord(Scalar(b.memberName.items[i]), Scalar(b.relation.items[i]),
                                  parseInt(b.age.items[i]), Scalar(b.maritalStatus.items[i]),
                                  Scalar(b.bloodGroup.items[i]), Scalar(b.qualification.items[i]),
                                  Scalar(b.occupation.items[i]))
  {
  }

  /** A member list shorter than `memberName` leaves the later members' field undefined; nothing throws. */
  lemma ShortListGivesUndefined(b: FormBody, parseInt: IntParser, ms: seq<MemberRecord>, i: nat)
    requires MembersFor(b, parseInt, ms)
    requires b.memberName.Seq? && b.relation.Seq? && |b.relation.items| <= i < |b.memberName.items|
    ensures i < |ms| && ms[i].relation == Absent
  {
  }

  /**
   * The member lists share the head's `occupation` and `bloodGroup` fields. With a single
   * string member they are the head's own values; with a list of members and a single
   * string for the head, member `i` gets the `i`-th character of the head's value.
   */
  lemma MembersShareHeadFields(b: FormBody, file: Option<string>, parseInt: IntParser, parseDate: DateParser,
                               ms: seq<MemberRecord>, i: nat)
    requires MembersFor(b, parseInt, ms) && i < |ms|
    ensures var head := NewFamily(b, file, parseDate, ms);
      (b.memberName.Scalar? ==> ms[i].occupation == head.occupation && ms[i].bloodGroup == head.bloodGroup) &&
      (b.memberName.Seq? && head.occupation.Scalar? && i < |head.occupation.text| ==>
         ms[i].occupation == Scalar([head.occupation.text[i]])) &&
      (b.memberName.Seq? && head.bloodGroup.Scalar? && i < |head.bloodGroup.text| ==>
         ms[i].bloodGroup == Scalar([head.bloodGroup.text[i]]))
  {
  }
}
