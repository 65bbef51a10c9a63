/** Ids of Drive items. */
module DriveNames {

  type Id = string

  /** The folder that everything is in. */
  const ROOT: Id := "root"
}
