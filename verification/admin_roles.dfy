/**
 * Role assignment in the Django admin: the user creation and change forms
 * (password confirmation, role-dependent required fields, flags and
 * profiles written on save), `save_model`, and the two list columns
 * (`get_role`, `get_directions`). The role an account is given round-trips
 * through the role resolution of the API.
 */
module AdminRoles {
  import opened Wrappers
  import opened Text
  import opened Domain
  import opened Roles

  /** The cleaned data of either form: the chosen role, directions (by name) and company. */
  datatype RoleForm = RoleForm(role: RoleChoice, directions: seq<string>, department: Option<DepartmentId>)

  /** The value stored in `PasswordRecord.role` and posted by the forms. */
  function ChoiceName(c: RoleChoice): string {
    match c
    case ChooseAdmin => "admin"
    case ChooseManager => "manager"
    case ChooseEntreprise => "entreprise"
    case ChooseEmployee => "employee"
  }

  /** A non-empty string, as Python's truth test sees it; an absent value is false. */
  predicate Truthy(s: Option<string>) {
    s.Some? && s.value != ""
  }

  datatype PasswordCheck = PasswordConfirmed(value: Option<string>) | PasswordMismatch

  /** `CustomUserCreationForm.clean_password2`. */
  function CleanPassword2(password1: Option<string>, password2: Option<string>): (r: PasswordCheck)
    ensures r == PasswordMismatch <==> Truthy(password1) && Truthy(password2) && password1 != password2
    ensures r.PasswordConfirmed? ==> r.value == password2
  {
    if Truthy(password1) && Truthy(password2) && password1 != password2 then PasswordMismatch
    else PasswordConfirmed(password2)
  }

  datatype FormError = CompanyRequired | DirectionRequired

  /** `clean` of both forms: a company role needs a company, a manager role at least one direction. */
  function CleanRoleFields(form: RoleForm): (r: Option<FormError>)
    ensures r == Some(CompanyRequired) <==> form.role == ChooseEntreprise && form.department.None?
    ensures r == Some(DirectionRequired) <==> form.role == ChooseManager && form.directions == []
    ensures r.None? <==> (form.role == ChooseEntreprise ==> form.department.Some?)
                         && (form.role == ChooseManager ==> form.directions != [])
  {
    if form.role == ChooseEntreprise && form.department.None? then Some(CompanyRequired)
    else if form.role == ChooseManager && form.directions == [] then Some(DirectionRequired)
    else None
  }

  /** The `(is_staff, is_superuser)` pair both `save` methods write for a role. */
  function Flags(c: RoleChoice): (f: (bool, bool))
    ensures f.1 ==> f.0
    ensures f.1 <==> c == ChooseAdmin
    ensures f.0 <==> c != ChooseEmployee
  {
    match c
    case ChooseAdmin => (true, true)
    case ChooseManager => (true, false)
    case ChooseEntreprise => (true, false)
    case ChooseEmployee => (false, false)
  }

  /** The role that a valid form asks for, in the terms of role resolution. */
  function Intended(form: RoleForm): (r: Role)
    requires CleanRoleFields(form).None?
  {
    match form.role
    case ChooseAdmin => AdminRole
    case ChooseManager => ManagerRole(form.directions)
    case ChooseEntreprise => EntrepriseRole(form.department.value)
    case ChooseEmployee => EmployeeRole
  }

  /** The account after `CustomUserCreationForm.save(commit)`. */
  function AfterCreationSave(u: Principal, form: RoleForm, commit: bool): (r: Principal)
    requires CleanRoleFields(form).None?
    ensures (r.isStaff, r.isSuperuser) == Flags(form.role) && r.id == u.id
    ensures !commit ==> r.companyDepartment == u.companyDepartment && r.managerDirections == u.managerDirections
  {
    var (staff, superuser) := Flags(form.role);
    var flagged := u.(isStaff := staff, isSuperuser := superuser);
    if !commit then flagged
    else
      var withManager :=
        if form.role == ChooseManager then
          // a valid manager form has directions, so they always replace the profile's
          flagged.(managerDirections := Some(form.directions))
        else flagged;
      if form.role == ChooseEntreprise then withManager.(companyDepartment := form.department) else withManager
  }

  /** The account after `CustomUserChangeForm.save(commit)`: the profile of another role is deleted. */
  function AfterChangeSave(u: Principal, form: RoleForm, commit: bool): (r: Principal)
    requires CleanRoleFields(form).None?
    ensures (r.isStaff, r.isSuperuser) == Flags(form.role) && r.id == u.id
    ensures commit ==> (r.managerDirections.Some? <==> form.role == ChooseManager)
    ensures commit ==> (r.companyDepartment.Some? <==> form.role == ChooseEntreprise)
    ensures !commit ==> r.companyDepartment == u.companyDepartment && r.managerDirections == u.managerDirections
  {
    var (staff, superuser) := Flags(form.role);
    var flagged := u.(isStaff := staff, isSuperuser := superuser);
    if !commit then flagged
    else
      flagged.(managerDirections := if form.role == ChooseManager then Some(form.directions) else None,
               companyDepartment := if form.role == ChooseEntreprise then form.department else None)
  }

  /** The profiles after `CustomUserAdmin.save_model`, which runs after the form's uncommitted save. */
  function AfterSaveModel(u: Principal, form: RoleForm): (r: Principal)
    requires CleanRoleFields(form).None?
    ensures r.isStaff == u.isStaff && r.isSuperuser == u.isSuperuser && r.id == u.id
    ensures r.managerDirections.Some? <==> form.role == ChooseManager
    ensures r.companyDepartment.Some? <==> form.role == ChooseEntreprise
  {
    var withManager :=
      if form.role == ChooseManager then
        u.(managerDirections := Some(form.directions))
      else u.(managerDirections := None);
    if form.role == ChooseEntreprise then withManager.(companyDepartment := form.department)
    else withManager.(companyDepartment := None)
  }

  /** A committed change-form save makes role resolution report the chosen role. */
  lemma ChangeFormRoundTrip(u: Principal, form: RoleForm)
    requires CleanRoleFields(form).None?
    ensures ResolveRole(AfterChangeSave(u, form, true)) == Intended(form)
  {
  }

  /** A committed creation-form save of a new account makes role resolution report the chosen role. */
  lemma CreationFormRoundTrip(u: Principal, form: RoleForm)
    requires CleanRoleFields(form).None?
    requires u.companyDepartment.None? && u.managerDirections.None?
    ensures ResolveRole(AfterCreationSave(u, form, true)) == Intended(form)
  {
  }

  /** The admin path (uncommitted form save, then `save_model`) reports the chosen role for any prior state. */
  lemma AdminPathRoundTrip(u: Principal, form: RoleForm)
    requires CleanRoleFields(form).None?
    ensures ResolveRole(AfterSaveModel(AfterChangeSave(u, form, false), form)) == Intended(form)
    ensures ResolveRole(AfterSaveModel(AfterCreationSave(u, form, false), form)) == Intended(form)
  {
  }

  /** `CustomUserAdmin.get_role`: the list column's label. */
  function GetRole(u: Principal): (shown: string)
    ensures shown == "Administrateur" <==> ResolveRole(u).AdminRole?
    ensures shown == "Entreprise" <==> ResolveRole(u).EntrepriseRole?
    ensures shown == "Manager" <==> ResolveRole(u).ManagerRole?
    ensures shown == "Employé" <==> ResolveRole(u).EmployeeRole?
  {
    if u.isSuperuser then "Administrateur"
    else if u.companyDepartment.Some? then "Entreprise"
    else if u.isStaff then "Manager"
    else "Employé"
  }

  /** The role the change form pre-selects (`CustomUserChangeForm.__init__`). */
  function InitialRole(u: Principal): (c: RoleChoice)
    ensures c == ChooseAdmin <==> ResolveRole(u).AdminRole?
    ensures c == ChooseEntreprise <==> ResolveRole(u).EntrepriseRole?
    ensures c == ChooseManager <==> ResolveRole(u).ManagerRole?
    ensures c == ChooseEmployee <==> ResolveRole(u).EmployeeRole?
  {
    if u.isSuperuser then ChooseAdmin
    else if u.companyDepartment.Some? then ChooseEntreprise
    else if u.isStaff then ChooseManager
    else ChooseEmployee
  }

  /** The whole pre-filled change form: role, the company profile's department, the manager profile's directions. */
  function InitialForm(u: Principal): (form: RoleForm)
    ensures form.role == InitialRole(u)
    ensures form.role == ChooseEntreprise ==> form.department == u.companyDepartment
  {
    RoleForm(InitialRole(u),
             if u.managerDirections.Some? then u.managerDirections.value else [],
             if !u.isSuperuser && u.companyDepartment.Some? then u.companyDepartment else None)
  }

  /**
   * Submitting the change form as it was pre-filled keeps the account's
   * role (when the form is valid: a manager without direction is refused).
   */
  lemma ResavingInitialFormKeepsRole(u: Principal)
    requires CleanRoleFields(InitialForm(u)).None?
    ensures ResolveRole(AfterChangeSave(u, InitialForm(u), true)) == ResolveRole(u)
  {
    ChangeFormRoundTrip(u, InitialForm(u));
  }

  /** `CustomUserAdmin.get_directions`, with the company names given by `nameOf`. */
  function GetDirections(u: Principal, nameOf: DepartmentId -> string): (r: string)
    ensures u.companyDepartment.Some? ==> r == "[Entreprise] " + nameOf(u.companyDepartment.value)
    ensures u.companyDepartment.None? && u.managerDirections.Some? && |u.managerDirections.value| == 1
            ==> r == u.managerDirections.value[0]
    ensures u.companyDepartment.None? && (u.managerDirections.None? || u.managerDirections.value == []) ==> r == "-"
    ensures u.companyDepartment.None? && u.managerDirections.Some? && u.managerDirections.value != [] ==>
              u.managerDirections.value[0] <= r &&
              |r| == TotalLength(u.managerDirections.value) + 2 * (|u.managerDirections.value| - 1) &&
              r == Join(u.managerDirections.value, ", ")
  {
    if u.companyDepartment.Some? then "[Entreprise] " + nameOf(u.companyDepartment.value)
    else if u.managerDirections.Some? && u.managerDirections.value != [] then Join(u.managerDirections.value, ", ")
    else "-"
  }

  /** A manager given one more direction sees its name appended after ", ". */
  lemma DirectionsGrowByOne(u: Principal, name: string, nameOf: DepartmentId -> string)
    requires u.companyDepartment.None? && u.managerDirections.Some? && u.managerDirections.value != []
    ensures GetDirections(u.(managerDirections := Some(u.managerDirections.value + [name])), nameOf)
            == GetDirections(u, nameOf) + ", " + name
  {
    JoinSnoc(u.managerDirections.value, name, ", ");
  }

  /** A Django user account with its role flags, its optional profiles and its stored password record. */
  class UserAccount {
    const id: UserId
    var isSuperuser: bool
    var isStaff: bool
    var companyDepartment: Option<DepartmentId>
    var managerDirections: Option<seq<string>>
    /** The `role` field of the account's `PasswordRecord`, if one was written. */
    var passwordRecordRole: Option<string>

    function Snapshot(): Principal
      reads this
    {
      Principal(id, isSuperuser, isStaff, companyDepartment, managerDirections)
    }

    /** A new, unsaved account with no flag and no profile. */
    constructor (id: UserId)
      ensures Snapshot() == Principal(id, false, false, None, None) && passwordRecordRole.None?
    {
      this.id := id;
      isSuperuser := false;
      isStaff := false;
      companyDepartment := None;
      managerDirections := None;
      passwordRecordRole := None;
    }

    /** `CustomUserCreationForm.save`: flags, then, when committing, profiles and the password record. */
    method CreationFormSave(form: RoleForm, commit: bool)
      requires CleanRoleFields(form).None?
      modifies this
      ensures Snapshot() == AfterCreationSave(old(Snapshot()), form, commit)
      ensures passwordRecordRole == if commit then Some(ChoiceName(form.role)) else old(passwordRecordRole)
    {
      var (staff, superuser) := Flags(form.role);
      isStaff, isSuperuser := staff, superuser;
      if commit {
        if form.role == ChooseManager {
          if managerDirections.None? {
            managerDirections := Some([]);
          }
          if form.directions != [] {
            managerDirections := Some(form.directions);
          }
        }
        if form.role == ChooseEntreprise {
          companyDepartment := form.department;
        }
        passwordRecordRole := Some(ChoiceName(form.role));
      }
    }

    /** `CustomUserChangeForm.save`: flags, then, when committing, profiles created or deleted to match the role. */
    method ChangeFormSave(form: RoleForm, commit: bool)
      requires CleanRoleFields(form).None?
      modifies this
      ensures Snapshot() == AfterChangeSave(old(Snapshot()), form, commit)
      ensures passwordRecordRole == old(passwordRecordRole)
    {
      var (staff, superuser) := Flags(form.role);
      isStaff, isSuperuser := staff, superuser;
      if commit {
        if form.role == ChooseManager {
          managerDirections := Some(form.directions);
        } else {
          managerDirections := None;
        }
        if form.role == ChooseEntreprise {
          companyDepartment := form.department;
        } else {
          companyDepartment := None;
        }
      }
    }

    /** `CustomUserAdmin.save_model`: the profile synchronisation after the account is saved. */
    method SaveModel(form: RoleForm)
      requires CleanRoleFields(form).None?
      modifies this
      ensures Snapshot() == AfterSaveModel(old(Snapshot()), form)
      ensures passwordRecordRole == old(passwordRecordRole)
    {
      if form.role == ChooseManager {
        if managerDirections.None? {
          managerDirections := Some([]);
        }
        if form.directions != [] {
          managerDirections := Some(form.directions);
        }
      } else {
        managerDirections := None;
      }
      if form.role == ChooseEntreprise {
        if form.department.Some? {
          companyDepartment := form.department;
        }
      } else {
        companyDepartment := None;
      }
    }
  }
}
