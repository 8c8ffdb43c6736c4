/** The visual variants of the UI `Badge` component used by the admin tables. */
module Badge {

  datatype Variant = Default | Secondary | Destructive | Outline
}
