/**
 * Student registration: the `STU-NNNNNN` identifier helper and the two
 * handlers that insert a student row (self sign-up and admin creation).
 * The password hash is a function parameter and the draw of
 * `Math.random()` a real in [0, 1).
 */
module Students {
  import opened Wrappers
  import opened Text

  /** The JSON `parentContactInfo` of a student; absent keys are `None`. */
  datatype ParentContact = ParentContact(email: Option<string>, phone: Option<string>)

  /** A row of the student table as the two handlers write it. */
  datatype StudentRecord = StudentRecord(
    name: string,
    email: string,
    passwordDigest: string,
    studentId: string,
    parentContactInfo: Option<ParentContact>)

  /** `Math.floor(100000 + Math.random() * 900000)` for the draw `u` in [0, 1). */
  function RandomSixDigits(u: real): (n: nat)
    requires 0.0 <= u < 1.0
    ensures 100000 <= n <= 999999
  {
    (100000.0 + u * 900000.0).Floor
  }

  /** `'STU-' + n.toString()`: ten characters, a six-digit number without a leading zero. */
  function GenerateStudentId(u: real): (id: string)
    requires 0.0 <= u < 1.0
    ensures |id| == 10 && id[..4] == "STU-"
    ensures AllDigits(id[4..]) && id[4] != '0'
    ensures 100000 <= DecimalValue(id[4..]) <= 999999
  {
    var n := RandomSixDigits(u);
    NatToStringLength(n, 6);
    NatToStringLength(n, 5);
    DecimalValueOfNatToString(n);
    var id := "STU-" + NatToString(n);
    assert id[4..] == NatToString(n);
    id
  }

  /** The student table that sign-up and admin creation append to. */
  class StudentTable {
    var students: seq<StudentRecord>

    constructor ()
      ensures students == []
    {
      students := [];
    }

    /**
     * Self sign-up: 400 without parent contact information, otherwise one
     * new row holding the password's hash, the generated identifier and the
     * contact information, and 201.
     */
    method Signup(name: string, email: string, password: string, parentContactInfo: Option<ParentContact>,
                  hashPassword: string -> string, u: real)
      returns (status: int, message: string, created: Option<StudentRecord>)
      requires 0.0 <= u < 1.0
      modifies this
      ensures parentContactInfo.None? ==>
        && status == 400 && message == "Parent contact information is required"
        && created.None? && students == old(students)
      ensures parentContactInfo.Some? ==>
        && status == 201 && message == "Student registered successfully"
        && created == Some(StudentRecord(name, email, hashPassword(password), GenerateStudentId(u), parentContactInfo))
        && students == old(students) + [created.value]
    {
      if parentContactInfo.None? {
        return 400, "Parent contact information is required", None;
      }
      var hashed := hashPassword(password);
      var studentId := GenerateStudentId(u);
      var record := StudentRecord(name, email, hashed, studentId, parentContactInfo);
      students := students + [record];
      return 201, "Student registered successfully", Some(record);
    }

    /** Admin creation: no contact information is asked for and none is stored. */
    method Create(name: string, email: string, password: string, hashPassword: string -> string, u: real)
      returns (status: int, message: string, created: StudentRecord)
      requires 0.0 <= u < 1.0
      modifies this
      ensures status == 201 && message == "Student created successfully"
      ensures created == StudentRecord(name, email, hashPassword(password), GenerateStudentId(u), None)
      ensures students == old(students) + [created]
    {
      var hashed := hashPassword(password);
      var studentId := GenerateStudentId(u);
      created := StudentRecord(name, email, hashed, studentId, None);
      students := students + [created];
      status, message := 201, "Student created successfully";
    }
  }
}
