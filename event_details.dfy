/** The pure helpers of the event details screen (`mobile/app/eventDetails.tsx`): the
    photo URL, the placeholders for a missing date, the ticket table and its lookup,
    and the guard of the booking button. */
module EventDetails {
  import opened Wrappers
  import opened Text
  import opened Js

  /** `getImageUrl(photoPath)` against the configured `API_BASE_URL`: no URL for a missing
      or empty path, an absolute `http`/`https` path as it is, and otherwise the path under
      `/uploads/` of the API base with its first `/api` removed. */
  function ImageUrl(apiBase: string, photoPath: Option<string>): (r: Option<string>)
    ensures r.None? <==> !Truthy(photoPath)
    ensures r.Some? ==> EndsWith(r.value, photoPath.value)
    ensures Truthy(photoPath) && StartsWith(photoPath.value, "http") ==> r == Some(photoPath.value)
    ensures Truthy(photoPath) && !StartsWith(photoPath.value, "http") ==>
      StartsWith(r.value, ReplaceFirst(apiBase, "/api", "") + "/uploads/")
      && |r.value| == |ReplaceFirst(apiBase, "/api", "")| + |"/uploads/"| + |photoPath.value|
    ensures Truthy(photoPath) && !StartsWith(photoPath.value, "http") ==>
      r == Some(ReplaceFirst(apiBase, "/api", "") + "/uploads/" + photoPath.value)
  {
    if !Truthy(photoPath) then None
    else if StartsWith(photoPath.value, "http") then Some(photoPath.value)
    else
      var prefix := ReplaceFirst(apiBase, "/api", "") + "/uploads/";
      var url := prefix + photoPath.value;
      assert url[..|prefix|] == prefix;
      assert url[|url| - |photoPath.value|..] == photoPath.value;
      Some(url)
  }

  /** For the usual configuration, a host followed by `/api`, a stored file name is served
      from `/uploads/` on that same host. */
  lemma ImageUrlUnderHost(host: string, file: string)
    requires IndexOf(host, "/api").None?
    requires file != "" && !StartsWith(file, "http")
    ensures ImageUrl(host + "/api", Some(file)) == Some(host + "/uploads/" + file)
  {
    var base := host + "/api";
    assert OccursAt(base, "/api", |host|);
    forall j | 0 <= j < |host|
      ensures !OccursAt(base, "/api", j)
    {
      if j + 4 <= |host| {
        assert host[j..j + 4] == base[j..j + 4];
        assert !OccursAt(host, "/api", j);
      } else {
        var k := |host| - j;
        assert base[j..j + 4][k] == base[|host|] == '/';
        assert "/api"[1] != '/' && "/api"[2] != '/' && "/api"[3] != '/';
      }
    }
    assert IndexOf(base, "/api") == Some(|host|);
    assert base[..|host|] == host;
    assert ReplaceFirst(base, "/api", "") == host;
  }

  /** `formatDate`: a missing or empty date reads "No date"; a present one is rendered by
      the locale formatter, which the model takes as a parameter. */
  function FormatDate(date: Option<string>, render: string -> string): (r: string)
    ensures !Truthy(date) ==> r == "No date"
    ensures Truthy(date) ==> r == render(date.value)
  {
    if !Truthy(date) then "No date" else render(date.value)
  }

  /** `formatTime`: a missing or empty date gives the empty string. */
  function FormatTime(date: Option<string>, render: string -> string): (r: string)
    ensures !Truthy(date) ==> r == ""
    ensures Truthy(date) ==> r == render(date.value)
  {
    if !Truthy(date) then "" else render(date.value)
  }

  /** One entry of the ticket table. Prices are exact here; the screen computes them in
      floating point. */
  datatype TicketType = TicketType(id: string, name: string, price: real, description: string, color: string)

  /** `event?.price || 0`: a missing event, a missing price and a zero price all give 0. */
  function BasePrice(eventPrice: Option<real>): (r: real)
    ensures eventPrice.Some? && eventPrice.value != 0.0 ==> r == eventPrice.value
    ensures eventPrice.None? || eventPrice.value == 0.0 ==> r == 0.0
  {
    if eventPrice.Some? && eventPrice.value != 0.0 then eventPrice.value else 0.0
  }

  /** The three ticket kinds offered for an event. */
  function TicketTypes(eventPrice: Option<real>): (r: seq<TicketType>)
    ensures |r| == 3
    ensures r[0].id == "normal" && r[1].id == "premium" && r[2].id == "vip"
    ensures r[0].price == BasePrice(eventPrice)
    ensures r[1].price == r[0].price * 1.5 && r[2].price == r[0].price * 2.5
  {
    var p := BasePrice(eventPrice);
    [ TicketType("normal", "Normal", p, "Standard entry with general seating", "#007aff"),
      TicketType("premium", "Premium", p * 1.5, "Premium seating with better view", "#34c759"),
      TicketType("vip", "VIP", p * 2.5, "VIP experience with exclusive access", "#ff9500") ]
  }

  /** `ticketTypes.find(t => t.id === selected)`: the first entry with that id. */
  function FindTicket(tickets: seq<TicketType>, selected: string): (r: Option<TicketType>)
    ensures r.Some? ==> r.value in tickets && r.value.id == selected
    ensures r.None? <==> forall i :: 0 <= i < |tickets| ==> tickets[i].id != selected
  {
    if tickets == [] then None
    else if tickets[0].id == selected then Some(tickets[0])
    else FindTicket(tickets[1..], selected)
  }

  /** Exactly the three ids `normal`, `premium` and `vip` find a ticket, and each finds
      its own entry. */
  lemma TicketLookup(eventPrice: Option<real>, selected: string)
    ensures FindTicket(TicketTypes(eventPrice), selected).Some? <==> selected in {"normal", "premium", "vip"}
    ensures selected == "normal" ==> FindTicket(TicketTypes(eventPrice), selected) == Some(TicketTypes(eventPrice)[0])
    ensures selected == "premium" ==> FindTicket(TicketTypes(eventPrice), selected) == Some(TicketTypes(eventPrice)[1])
    ensures selected == "vip" ==> FindTicket(TicketTypes(eventPrice), selected) == Some(TicketTypes(eventPrice)[2])
  {
    var t := TicketTypes(eventPrice);
    assert t[1..][1..] == [t[2]];
  }

  /** What pressing the booking button leads to. */
  datatype BookingStep = SelectTicketPrompt | ConfirmBooking(ticket: Option<TicketType>)

  /** `handleBookTicket`: without a selected ticket only the prompt is shown; otherwise the
      confirmation dialog is opened for the looked-up ticket. */
  function BookTicket(tickets: seq<TicketType>, selected: Option<string>): (r: BookingStep)
    ensures r.SelectTicketPrompt? <==> !Truthy(selected)
    ensures r.ConfirmBooking? ==> r.ticket == FindTicket(tickets, selected.value)
  {
    if !Truthy(selected) then SelectTicketPrompt
    else ConfirmBooking(FindTicket(tickets, selected.value))
  }

  /** On the screen, a selection can only be one of the listed ids, so confirmation always
      names a ticket of the table. */
  lemma BookingNamesListedTicket(eventPrice: Option<real>, selected: string)
    requires selected in {"normal", "premium", "vip"}
    ensures BookTicket(TicketTypes(eventPrice), Some(selected)).ConfirmBooking?
    ensures BookTicket(TicketTypes(eventPrice), Some(selected)).ticket.Some?
    ensures BookTicket(TicketTypes(eventPrice), Some(selected)).ticket.value.id == selected
  {
    TicketLookup(eventPrice, selected);
  }
}
