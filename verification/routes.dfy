/** Router navigations the pages and the route guard request. */
module Routes {
  /** `navigate(path, { replace })`. */
  datatype Navigation = Navigate(path: string, replace: bool)

  const CustomerRoute := "/customer"
  const LoginRoute := "/login"
}
