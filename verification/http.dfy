/** Request methods and cookie settings as Express and the `cookie` package see them. */
module Http {

  /** The request method; any method outside the named ones is kept by its name. */
  datatype Method = GET | HEAD | POST | PUT | PATCH | DELETE | OPTIONS | OtherMethod(name: string)

  /** The options object passed to `res.cookie`; `maxAge` is in milliseconds. */
  datatype CookieOptions = CookieOptions(
    httpOnly: bool,
    sameSite: string,
    secure: bool,
    path: string,
    maxAge: int)

  /** One `Set-Cookie` instruction: `res.cookie(name, value, options)`. */
  datatype SetCookie = SetCookie(name: string, value: string, options: CookieOptions)
}
