/** The service-orders list: the badge colour for an order's status. */
module ServiceOrders {

  const Done := "bg-green-100 text-green-800"
  const Running := "bg-blue-100 text-blue-800"
  const Pending := "bg-amber-100 text-amber-800"
  const Other := "bg-gray-100 text-gray-800"

  /** The badge colour of a status, matched exactly (case matters): "Completato" green,
      "In corso" blue, "Da iniziare" amber, every other string grey. */
  function StatusColor(status: string): (color: string)
    ensures color in {Done, Running, Pending, Other}
    ensures color == Done <==> status == "Completato"
    ensures color == Running <==> status == "In corso"
    ensures color == Pending <==> status == "Da iniziare"
    ensures color == Other <==> status !in {"Completato", "In corso", "Da iniziare"}
  {
    match status
    case "Completato" => Done
    case "In corso" => Running
    case "Da iniziare" => Pending
    case _ => Other
  }

  /** Matching does not ignore case: the lower-case spellings fall through to grey. */
  lemma CaseVariantsAreGrey()
    ensures StatusColor("completato") == Other
    ensures StatusColor("in corso") == Other
    ensures StatusColor("da iniziare") == Other
  {
  }
}
