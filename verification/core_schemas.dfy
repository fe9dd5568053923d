/** The shapes of the company and application resources the check pipeline
    depends on. */
module CoreSchemas {

  /** `ApplicationRole`: the three access levels a client application can hold. */
  datatype ApplicationRole = SuperUser | CompanyAdmin | CompanyUser {
    function Value(): string {
      match this
      case SuperUser => "super_user"
      case CompanyAdmin => "company_admin"
      case CompanyUser => "company_user"
    }
  }

  /** `CompanyInSchema`. */
  datatype CompanyIn = CompanyIn(name: string)

  /** The length bounds the request validator enforces on a company name. */
  predicate ValidCompanyIn(c: CompanyIn) {
    3 <= |c.name| <= 100
  }
}
