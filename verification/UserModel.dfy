/** Roles and statuses of users. */
module UserModel {
  datatype Role = USER | ADMIN
  datatype Status = ACTIVE | SUSPENDED | DELETED
}
