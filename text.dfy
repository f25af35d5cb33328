/** Small string helpers shared by the router and the scroll-spy. */
module Text {

  datatype Option<T> = None | Some(value: T)

  /** JavaScript's `s.substring(1)`: the string without its first character;
      the empty string stays empty. Used on `location.hash` and on `href`s. */
  function Drop(s: string): (r: string)
    ensures |s| == 0 ==> r == ""
    ensures |s| > 0 ==> s == [s[0]] + r
  {
    if |s| == 0 then "" else s[1..]
  }
}
