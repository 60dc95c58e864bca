/** Conversion between stored usernames and their IDNA (punycode) form. */
module Username {
  import opened Wrappers
  import opened Foreign

  /** `username_to_idna`: the ASCII form, or the username itself when IDNA conversion
      fails. */
  function UsernameToIdna(libs: Libs, username: string): (r: string)
    ensures libs.domainToAscii(username).None? ==> r == username
    ensures libs.domainToAscii(username).Some? ==> r == libs.domainToAscii(username).value
  {
    libs.domainToAscii(username).GetOr(username)
  }

  /** `idna_to_username`: the Unicode form, whatever the conversion reported. */
  function IdnaToUsername(libs: Libs, idna: string): string {
    libs.domainToUnicode(idna)
  }
}
