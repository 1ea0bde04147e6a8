/**
 Contact intelligence: the people behind a funding source candidate. A new
 contact must name a person and a contact type, carry a well-formed email
 if it carries one at all, and not repeat, ignoring case, the email of a
 contact the candidate already has. Marking a contact inactive appends a
 dated line to its relationship notes.
 */
module Contacts {
  import opened Wrappers
  import opened Text
  import opened Time
  import opened Store
  import Candidates

  datatype ContactType = PROGRAM_OFFICER | FOUNDATION_STAFF | GOVERNMENT_OFFICIAL | ACADEMIC_CONTACT | CORPORATE_CONTACT

  datatype ContactIntelligence = ContactIntelligence(
    contactId: Option<Uuid>,
    candidateId: Option<Uuid>,
    contactType: Option<ContactType>,
    fullName: Option<string>,
    email: Option<string>,
    isActive: Option<bool>,
    relationshipNotes: Option<string>)

  type ContactTable = map<Uuid, ContactIntelligence>

  predicate IsLetter(c: char) {
    ('A' <= c <= 'Z') || ('a' <= c <= 'z')
  }

  predicate IsDigit(c: char) {
    '0' <= c <= '9'
  }

  /* The class [A-Za-z0-9+_.-] of the part before the '@'. */
  predicate IsLocalChar(c: char) {
    IsLetter(c) || IsDigit(c) || c == '+' || c == '_' || c == '.' || c == '-'
  }

  /* The class [A-Za-z0-9.-] of the host part. */
  predicate IsHostChar(c: char) {
    IsLetter(c) || IsDigit(c) || c == '.' || c == '-'
  }

  /*
   What it means for the whole of s to match ^[A-Za-z0-9+_.-]+@[A-Za-z0-9.-]+\.[A-Za-z]{2,}$:
   the '@' at i and the '.' at j cut s into a non-empty local part, a
   non-empty host and a top-level part of two or more letters.
   */
  predicate EmailSplit(s: string, i: int, j: int) {
    && 1 <= i && i + 2 <= j && j + 3 <= |s|
    && s[i] == '@' && s[j] == '.'
    && (forall k :: 0 <= k < i ==> IsLocalChar(s[k]))
    && (forall k :: i < k < j ==> IsHostChar(s[k]))
    && (forall k :: j < k < |s| ==> IsLetter(s[k]))
  }

  ghost predicate MatchesEmailPattern(s: string) {
    exists i, j :: EmailSplit(s, i, j)
  }

  /* String.lastIndexOf(char): the last index holding c, or -1. */
  function LastIndexOf(s: string, c: char): (r: int)
    ensures -1 <= r < |s|
    ensures r == -1 <==> c !in s
    ensures r >= 0 ==> s[r] == c && forall k :: r < k < |s| ==> s[k] != c
  {
    if |s| == 0 then -1
    else if s[|s| - 1] == c then |s| - 1
    else
      var r := LastIndexOf(s[..|s| - 1], c);
      assert forall k :: 0 <= k < |s| - 1 ==> s[..|s| - 1][k] == s[k];
      assert c in s ==> c in s[..|s| - 1] by {
        if c in s {
          var k :| 0 <= k < |s| && s[k] == c;
          assert s[..|s| - 1][k] == c;
        }
      }
      r
  }

  /* The host part after the '@': host characters only, and after its last '.' at least two letters. */
  predicate ValidHostPart(h: string) {
    && (forall k :: 0 <= k < |h| ==> IsHostChar(h[k]))
    && var d := LastIndexOf(h, '.');
       1 <= d && d + 3 <= |h| && forall k :: d < k < |h| ==> IsLetter(h[k])
  }

  /* The email check, decided by the first '@' and the host's last '.'. */
  predicate ValidEmail(s: string) {
    var i := IndexOf(s, '@');
    && 1 <= i
    && (forall k :: 0 <= k < i ==> IsLocalChar(s[k]))
    && ValidHostPart(s[i + 1..])
  }

  /* The check accepts exactly the strings the pattern matches. */
  lemma ValidEmailIsPattern(s: string)
    ensures ValidEmail(s) <==> MatchesEmailPattern(s)
  {
    if ValidEmail(s) {
      ValidEmailMatches(s);
    }
    if MatchesEmailPattern(s) {
      var i, j :| EmailSplit(s, i, j);
      MatchIsValidEmail(s, i, j);
    }
  }

  /* An accepted string splits at its first '@' and its host's last '.'. */
  lemma ValidEmailMatches(s: string)
    requires ValidEmail(s)
    ensures EmailSplit(s, IndexOf(s, '@'), IndexOf(s, '@') + 1 + LastIndexOf(s[IndexOf(s, '@') + 1..], '.'))
  {
    var i := IndexOf(s, '@');
    var h := s[i + 1..];
    assert forall k :: 0 <= k < |h| ==> h[k] == s[i + 1 + k];
  }

  /* A split the pattern allows is the one the check finds. */
  lemma MatchIsValidEmail(s: string, i: int, j: int)
    requires EmailSplit(s, i, j)
    ensures ValidEmail(s)
  {
    PatternCutsAtFirstAt(s, i, j);
    MatchHostPart(s, i, j);
  }

  /* After the '@' of a match comes a valid host part, its last '.' being the split's. */
  lemma MatchHostPart(s: string, i: int, j: int)
    requires EmailSplit(s, i, j)
    ensures ValidHostPart(s[i + 1..])
  {
    var h := s[i + 1..];
    var d := j - i - 1;
    forall k | 0 <= k < |h|
      ensures IsHostChar(h[k]) || (k > d && IsLetter(h[k]))
      ensures k > d ==> IsLetter(h[k]) && h[k] != '.'
      ensures k == d ==> h[k] == '.'
    {
      assert h[k] == s[i + 1 + k];
    }
    LastIndexAt(h, '.', d);
  }

  /* The last occurrence is the one with none after it. */
  lemma LastIndexAt(s: string, c: char, d: int)
    requires 0 <= d < |s| && s[d] == c
    requires forall k :: d < k < |s| ==> s[k] != c
    ensures LastIndexOf(s, c) == d
  {
  }

  /* The local part holds no '@', so a match cuts at the first one. */
  lemma PatternCutsAtFirstAt(s: string, i: int, j: int)
    requires EmailSplit(s, i, j)
    ensures IndexOf(s, '@') == i
  {
    var f := IndexOf(s, '@');
    assert s[i] == '@';
    if f > i {
      InPrefix(s, f, i);
    }
  }

  lemma InPrefix(s: string, n: int, i: int)
    requires 0 <= i < n <= |s|
    ensures s[i] in s[..n]
  {
    assert s[..n][i] == s[i];
  }

  /* A well-formed address passes. */
  lemma ValidEmailExample()
    ensures ValidEmail("jane.doe@fund.org")
  {
    assert EmailSplit("jane.doe@fund.org", 8, 13);
    ValidEmailIsPattern("jane.doe@fund.org");
  }

  /* A host without a dot fails. */
  lemma HostWithoutDotFails()
    ensures !ValidEmail("jane@org")
  {
    var s := "jane@org";
    assert forall j :: 0 <= j < |s| ==> s[j] != '.';
    ValidEmailIsPattern(s);
  }

  /* A one-letter top-level part fails. */
  lemma ShortTopLevelFails()
    ensures !ValidEmail("jane@fund.o")
  {
    var s := "jane@fund.o";
    assert forall j :: 0 <= j < |s| && s[j] == '.' ==> j == 9;
    ValidEmailIsPattern(s);
  }

  /* A missing or blank email is accepted; any other must match the pattern. */
  function EmailAcceptable(e: Option<string>): (r: bool)
    ensures r <==> IsNullOrBlank(e) || MatchesEmailPattern(e.value)
  {
    if IsNullOrBlank(e) then true
    else
      ValidEmailIsPattern(e.value);
      ValidEmail(e.value)
  }

  /* validateContactData: the name, then the type, then a non-blank email's format. */
  function ValidateContactData(c: ContactIntelligence): (r: Option<Exception>)
    ensures r.None? <==>
      !IsNullOrBlank(c.fullName) && c.contactType.Some? && (IsNullOrBlank(c.email) || MatchesEmailPattern(c.email.value))
    ensures IsNullOrBlank(c.fullName) ==> r == Some(IllegalArgument("Contact fullName is required"))
    ensures !IsNullOrBlank(c.fullName) && c.contactType.None? ==> r == Some(IllegalArgument("Contact contactType is required"))
  {
    if IsNullOrBlank(c.fullName) then Some(IllegalArgument("Contact fullName is required"))
    else if c.contactType.None? then Some(IllegalArgument("Contact contactType is required"))
    else if !EmailAcceptable(c.email) then
      Some(IllegalArgument("Invalid email format: " + c.email.value))
    else None
  }

  /* One stored contact of the candidate has the new contact's email, ignoring case. */
  predicate SameEmail(existing: ContactIntelligence, email: string) {
    existing.email.Some? && EqualsIgnoreCase(existing.email.value, email)
  }

  /* isDuplicateContact over the candidate's stored contacts; no email, no duplicate. */
  function IsDuplicateContact(c: ContactIntelligence, contacts: ContactTable, candidateId: Uuid): (r: bool)
    ensures IsNullOrBlank(c.email) ==> !r
    ensures !IsNullOrBlank(c.email) ==>
      (r <==> exists id :: id in contacts && contacts[id].candidateId == Some(candidateId) && SameEmail(contacts[id], c.email.value))
  {
    if IsNullOrBlank(c.email) then false
    else FindWhere(contacts, (e: ContactIntelligence) => e.candidateId == Some(candidateId) && SameEmail(e, c.email.value)).Some?
  }

  /*
   addContact: the candidate must exist, the contact must validate and not
   duplicate; the saved contact belongs to the candidate and is active
   unless it says otherwise.
   */
  function AddContact(candidates: Candidates.CandidateTable, contacts: ContactTable, candidateId: Uuid,
                      c: ContactIntelligence, freshId: Uuid): (r: Result<(ContactTable, ContactIntelligence)>)
    ensures r.Ok? <==>
      && candidateId in candidates
      && ValidateContactData(c).None?
      && !IsDuplicateContact(c, contacts, candidateId)
    ensures candidateId !in candidates ==> r == Fail(Candidates.NotFound(candidateId))
    ensures candidateId in candidates && ValidateContactData(c).Some? ==> r == Fail(ValidateContactData(c).value)
    ensures candidateId in candidates && ValidateContactData(c).None? && IsDuplicateContact(c, contacts, candidateId) ==>
      r == Fail(IllegalState("duplicate contact with email " + c.email.value + " already exists for this candidate"))
    ensures r.Ok? ==>
      var saved := r.value.1;
      && saved.contactId.Some?
      && r.value.0 == contacts[saved.contactId.value := saved]
      && saved.candidateId == Some(candidateId)
      && saved.isActive == Some(c.isActive.GetOr(true))
      && saved.(contactId := c.contactId, candidateId := c.candidateId, isActive := c.isActive) == c
  {
    if candidateId !in candidates then Fail(Candidates.NotFound(candidateId))
    else match ValidateContactData(c)
      case Some(e) => Fail(e)
      case None =>
        if IsDuplicateContact(c, contacts, candidateId) then
          Fail(IllegalState("duplicate contact with email " + c.email.value + " already exists for this candidate"))
        else
          var id := c.contactId.GetOr(freshId);
          var saved := c.(contactId := Some(id), candidateId := Some(candidateId), isActive := Some(c.isActive.GetOr(true)));
          Ok((contacts[id := saved], saved))
  }

  /* After a contact with an email is added, the same email in another case is refused for that candidate. */
  lemma SecondContactWithSameEmailRefused(candidates: Candidates.CandidateTable, contacts: ContactTable, candidateId: Uuid,
                                          c: ContactIntelligence, d: ContactIntelligence, id1: Uuid, id2: Uuid)
    requires AddContact(candidates, contacts, candidateId, c, id1).Ok?
    requires !IsNullOrBlank(c.email) && d.email.Some? && EqualsIgnoreCase(c.email.value, d.email.value)
    requires ValidateContactData(d).None?
    ensures AddContact(candidates, AddContact(candidates, contacts, candidateId, c, id1).value.0, candidateId, d, id2) ==
      Fail(IllegalState("duplicate contact with email " + d.email.value + " already exists for this candidate"))
  {
    var saved := AddContact(candidates, contacts, candidateId, c, id1).value.1;
    var t := AddContact(candidates, contacts, candidateId, c, id1).value.0;
    assert t[saved.contactId.value] == saved;
    EqualsIgnoreCaseSymmetric(c.email.value, d.email.value);
    assert !IsNullOrBlank(d.email) by {
      assert |d.email.value| == |c.email.value|;
      BlankRespectsEqualLength(c.email.value, d.email.value);
    }
    assert SameEmail(t[saved.contactId.value], d.email.value);
  }

  lemma EqualsIgnoreCaseSymmetric(a: string, b: string)
    requires EqualsIgnoreCase(a, b)
    ensures EqualsIgnoreCase(b, a)
  {
  }

  /* A non-blank string is not equal, ignoring case, to a blank one. */
  lemma BlankRespectsEqualLength(a: string, b: string)
    requires EqualsIgnoreCase(a, b) && !IsBlank(a)
    ensures !IsBlank(b)
  {
    var k :| 0 <= k < |a| && !IsJavaWhitespace(a[k]);
    CaseMappingKeepsWhitespace(a[k], b[k]);
  }

  /* Characters equal ignoring case are whitespace together. */
  lemma CaseMappingKeepsWhitespace(x: char, y: char)
    requires x == y || UpperChar(x) == UpperChar(y) || LowerChar(UpperChar(x)) == LowerChar(UpperChar(y))
    requires !IsJavaWhitespace(x)
    ensures !IsJavaWhitespace(y)
  {
    WhitespaceCaseless(x);
    WhitespaceCaseless(y);
    WhitespaceCaseless(UpperChar(x));
  }

  /* A contact without an email never counts as a duplicate. */
  lemma NoEmailNeverDuplicate(contacts: ContactTable, candidateId: Uuid, c: ContactIntelligence)
    requires c.email.None?
    ensures !IsDuplicateContact(c, contacts, candidateId)
  {
  }

  function NotFound(id: Uuid): Exception {
    IllegalArgument("Contact not found: " + Digits(id))
  }

  /*
   markContactInactive: inactive, with "Marked inactive: <reason> (at <now>)"
   appended on a new line of the notes. `nowText` is the clock's rendering.
   */
  function MarkContactInactive(contacts: ContactTable, contactId: Uuid, reason: Option<string>, nowText: string)
    : (r: Result<ContactTable>)
    ensures r.Fail? <==> contactId !in contacts
    ensures r.Fail? ==> r.error == NotFound(contactId)
    ensures r.Ok? ==>
      var old_ := contacts[contactId];
      var line := "Marked inactive: " + JavaText(reason) + " (at " + nowText + ")";
      && OnlyRecordChanged(contacts, r.value, contactId)
      && r.value[contactId].isActive == Some(false)
      && r.value[contactId].relationshipNotes.Some?
      && (old_.relationshipNotes.None? ==> r.value[contactId].relationshipNotes == Some(line))
      && (old_.relationshipNotes.Some? ==>
            r.value[contactId].relationshipNotes == Some(old_.relationshipNotes.value + "\n" + line))
      && r.value[contactId].(isActive := old_.isActive, relationshipNotes := old_.relationshipNotes) == old_
  {
    if contactId !in contacts then Fail(NotFound(contactId))
    else
      var c := contacts[contactId];
      var line := "Marked inactive: " + JavaText(reason) + " (at " + nowText + ")";
      var notes := if c.relationshipNotes.Some? then c.relationshipNotes.value + "\n" + line else line;
      Ok(contacts[contactId := c.(isActive := Some(false), relationshipNotes := Some(notes))])
  }

  /* Marking inactive twice keeps both lines: the notes only grow. */
  lemma NotesOnlyGrow(contacts: ContactTable, contactId: Uuid, r1: Option<string>, r2: Option<string>, t1: string, t2: string)
    requires contactId in contacts
    ensures var once := MarkContactInactive(contacts, contactId, r1, t1).value;
      var twice := MarkContactInactive(once, contactId, r2, t2).value;
      StartsWith(twice[contactId].relationshipNotes.value, once[contactId].relationshipNotes.value + "\n")
  {
    var once := MarkContactInactive(contacts, contactId, r1, t1).value;
    var n := once[contactId].relationshipNotes.value + "\n";
    var twice := MarkContactInactive(once, contactId, r2, t2).value;
    var line := "Marked inactive: " + JavaText(r2) + " (at " + t2 + ")";
    assert twice[contactId].relationshipNotes.value == n + line;
    assert (n + line)[..|n|] == n;
  }
}
