/** The presentation fields JS/ui.js derives from the connection: the
    toggle button and the edit and delete buttons (updateButtonState), and
    the status label (updateConnectionStatus). Each is a value computed
    from the one before, the reported state and the selection. */
module UiState {
  import opened Transport

  /** The toggle button's textContent, className and disabled flag. */
  datatype Button = Button(text: string, cssClass: string, disabled: bool)

  /** The dashboard's connection controls. */
  datatype Controls = Controls(toggle: Button, editDisabled: bool, deleteDisabled: bool)

  /** updateButtonState(connectionState, hasSelectedServer). A closing
      socket leaves the toggle button as it was. */
  function UpdateButtonState(prev: Controls, st: ReadyState, hasSelected: bool): (r: Controls)
    ensures r.editDisabled == !hasSelected && r.deleteDisabled == !hasSelected
    ensures st == Closing ==> r.toggle == prev.toggle
  {
    var toggle :=
      match st
      case Closed => Button("Conectar", "btn-connect", !hasSelected)
      case Open => Button("Desconectar", "btn-disconnect", false)
      case Connecting => Button("Conectando...", "btn-connect", true)
      case Closing => prev.toggle;
    Controls(toggle, !hasSelected, !hasSelected)
  }

  /** Outside the closing handshake the toggle button can be pressed
      exactly when the socket is open, or closed with a server selected. */
  lemma ToggleEnabledIff(prev: Controls, st: ReadyState, hasSelected: bool)
    requires st != Closing
    ensures !UpdateButtonState(prev, st, hasSelected).toggle.disabled
        <==> st == Open || (st == Closed && hasSelected)
  {
  }

  /** Outside the closing handshake the button offers to disconnect
      exactly when the socket is open, and the previous button plays no
      part. */
  lemma ToggleOffersDisconnectIff(prev: Controls, other: Controls, st: ReadyState, hasSelected: bool)
    requires st != Closing
    ensures UpdateButtonState(prev, st, hasSelected).toggle.cssClass == "btn-disconnect" <==> st == Open
    ensures UpdateButtonState(prev, st, hasSelected) == UpdateButtonState(other, st, hasSelected)
  {
  }

  /** Refreshing twice with the same state and selection changes nothing
      more than refreshing once. */
  lemma UpdateButtonStateIdempotent(prev: Controls, st: ReadyState, hasSelected: bool)
    ensures var once := UpdateButtonState(prev, st, hasSelected);
      UpdateButtonState(once, st, hasSelected) == once
  {
  }

  /** After open then closing, the button still offers to disconnect and
      can be pressed. */
  lemma ClosingAfterOpenKeepsDisconnect(prev: Controls, hasSelected: bool, later: bool)
    ensures var r := UpdateButtonState(UpdateButtonState(prev, Open, hasSelected), Closing, later);
      r.toggle.cssClass == "btn-disconnect" && !r.toggle.disabled && r.editDisabled == !later
  {
  }

  /** The status label: its textContent and className. */
  datatype StatusLabel = StatusLabel(text: string, cssClass: string)

  /** The className updateConnectionStatus gives a status text. */
  function StatusClass(status: string): (c: string)
    ensures c in {"connected", "connecting", "error", "disconnected"}
  {
    if status == "Conectado" then "connected"
    else if status == "Conectando..." then "connecting"
    else if status == "Erro" then "error"
    else "disconnected"
  }

  /** updateConnectionStatus(status). */
  function UpdateConnectionStatus(status: string): (r: StatusLabel)
    ensures r.text == status
  {
    StatusLabel(status, StatusClass(status))
  }

  /** Each of the three recognised texts has its own class, and every
      other text is shown as disconnected. */
  lemma StatusClassIff(status: string)
    ensures StatusClass(status) == "connected" <==> status == "Conectado"
    ensures StatusClass(status) == "connecting" <==> status == "Conectando..."
    ensures StatusClass(status) == "error" <==> status == "Erro"
    ensures StatusClass(status) == "disconnected"
        <==> status != "Conectado" && status != "Conectando..." && status != "Erro"
  {
  }
}
