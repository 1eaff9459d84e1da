/** The records of the application that the modelled logic reads. */
module Types {

  /** One pricing tier of a gig; prices are whole rupees. */
  datatype Package = Package(id: string, name: string, price: int)

  datatype Packages = Packages(basic: Package, standard: Package, premium: Package)

  /** A sellable service listing (fields the catalogue query does not read are left out). */
  datatype Gig = Gig(id: string, title: string, description: string, category: string, packages: Packages)

  datatype ToastType = Success | Error | Info

  datatype Toast = Toast(id: string, kind: ToastType, message: string)
}
