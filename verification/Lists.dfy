/** The two ends of a sequence. */
module Lists {
  function Front<T>(xs: seq<T>): seq<T>
    requires xs != []
  {
    xs[..|xs|-1]
  }

  function Last<T>(xs: seq<T>): T
    requires xs != []
  {
    xs[|xs|-1]
  }
}
