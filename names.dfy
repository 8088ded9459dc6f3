/** How the client pages show a person: `getDisplayName` and `getInitials`,
    which app/notifications/page.tsx and app/discover/page.tsx define
    identically. */
module Names {
  import opened Common

  /** The name columns the pages read; each may be null. */
  datatype Person = Person(username: Option<string>, firstName: Option<string>, lastName: Option<string>)

  /** JavaScript truthiness of a nullable string: present and not empty. */
  predicate Truthy(s: Option<string>) {
    s.Some? && s.value != ""
  }

  /** `a || b`: `a` when truthy, otherwise `b`. */
  function OrElse(a: Option<string>, b: string): (r: string)
    ensures Truthy(a) ==> r == a.value
    ensures !Truthy(a) ==> r == b
  {
    if Truthy(a) then a.value else b
  }

  predicate HasFullName(p: Person) {
    Truthy(p.firstName) && Truthy(p.lastName)
  }

  /** `getDisplayName`: "first last" when both are set, otherwise the first
      set one of username, first name and last name, otherwise "Unknown User". */
  function DisplayName(p: Person): (r: string)
    ensures r != []
    ensures HasFullName(p) ==> r == p.firstName.value + " " + p.lastName.value
    ensures !HasFullName(p) ==>
      || (Truthy(p.username) && r == p.username.value)
      || (!Truthy(p.username) && Truthy(p.firstName) && r == p.firstName.value)
      || (!Truthy(p.username) && !Truthy(p.firstName) && Truthy(p.lastName) && r == p.lastName.value)
      || (!Truthy(p.username) && !Truthy(p.firstName) && !Truthy(p.lastName) && r == "Unknown User")
  {
    if HasFullName(p) then p.firstName.value + " " + p.lastName.value
    else OrElse(p.username, OrElse(p.firstName, OrElse(p.lastName, "Unknown User")))
  }

  predicate NoLowercase(s: string) {
    forall i :: 0 <= i < |s| ==> !('a' <= s[i] <= 'z')
  }

  /** `getInitials`: both name initials when both names are set, otherwise
      the first two characters of the username, otherwise "U"; upper-cased. */
  function Initials(p: Person): (r: string)
    ensures 1 <= |r| <= 2 && NoLowercase(r)
    ensures HasFullName(p) ==> r == Upper([p.firstName.value[0], p.lastName.value[0]])
    ensures !HasFullName(p) && Truthy(p.username) ==>
      r == Upper(p.username.value[..Min(2, |p.username.value|)])
    ensures !HasFullName(p) && !Truthy(p.username) ==> r == "U"
  {
    if HasFullName(p) then Upper([p.firstName.value[0], p.lastName.value[0]])
    else if Truthy(p.username) then Upper(p.username.value[..Min(2, |p.username.value|)])
    else "U"
  }

  /** A first name alone is not used for the initials. */
  lemma FirstNameAloneGivesU(first: string)
    requires first != ""
    ensures Initials(Person(None, Some(first), None)) == "U"
    ensures DisplayName(Person(None, Some(first), None)) == first
  {
  }
}
