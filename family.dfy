/** The entities of the registry: form bodies, family and member records, session users. */
module Family {
  import opened Wrappers
  import opened JsValues
  import opened Dates

  datatype Status = Pending | Approved | Rejected

  /** One household member; `age` is `None` when `parseInt` gave NaN. */
  datatype MemberRecord = MemberRecord(
    name: Field,
    relation: Field,
    age: Option<int>,
    maritalStatus: Field,
    bloodGroup: Field,
    qualification: Field,
    occupation: Field)

  /** A family record as the registration handler builds it; `dob` is `None` for an Invalid Date. */
  datatype FamilyRecord = FamilyRecord(
    profileImage: string,
    familyHead: Field,
    gender: Field,
    dob: Option<Instant>,
    phone: Field,
    email: Field,
    locality: Field,
    city: Field,
    occupation: Field,
    gotra: Field,
    nativePlace: Field,
    bloodGroup: Field,
    address: Field,
    members: seq<MemberRecord>,
    status: Status)

  /**
   * The fields of a registration body. The head's `occupation` and `bloodGroup` are
   * also the fields the member list is read from: the form has no separate member fields.
   */
  datatype FormBody = FormBody(
    value: Field,
    gender: Field,
    dob: Field,
    phone: Field,
    email: Field,
    city: Field,
    locality: Field,
    occupation: Field,
    gotra: Field,
    nativePlace: Field,
    bloodGroup: Field,
    address: Field,
    memberName: Field,
    relation: Field,
    age: Field,
    maritalStatus: Field,
    qualification: Field)

  /** A stored record together with its store-generated identifier. */
  datatype StoredFamily = StoredFamily(id: string, record: FamilyRecord)

  /** The user bound into the session at login: `{id, email, name}`. */
  datatype SessionUser = SessionUser(id: string, email: Field, name: Field)

  /** What a route handler answers. */
  datatype Response =
    | Redirect(location: string)
    | SendFile(file: string)
    | RenderLogin(error: Option<string>)
    | RenderDashboard(user: SessionUser)
    | Send(status: nat, body: string)
}
