/** The four role names (UserType.cs). A role is a plain string everywhere in the system. */
module UserType {
  const Member: string := "Member"
  const StaffMinor: string := "StaffMinor"
  const StaffManagement: string := "StaffManagement"
  const None: string := "None"

  /** The two roles a staff account may carry. */
  predicate IsStaffType(t: string) {
    t == StaffMinor || t == StaffManagement
  }

  /** The roles an account can be created with: a member or a staff role, never "None". */
  predicate IsCreatable(t: string) {
    t == Member || IsStaffType(t)
  }
}
