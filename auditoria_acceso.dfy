/**
 * AuditoriaAcceso: one access-audit record, keyed by a fresh UUID and the
 * event instant. It does not inherit BaseEntity: it keeps its own
 * timestamps, and its soft delete and restore also touch `updatedAt`.
 */
module AuditoriaAccesoEntity {
  import opened Common
  import opened Entities
  import opened UsuarioEntity

  datatype EstadoAuditoria = EXITOSO | FALLIDO
  {
    function Valor(): string {
      match this
      case EXITOSO => "exitoso"
      case FALLIDO => "fallido"
    }
  }

  /** The composite key: two keys are equal exactly when both parts are. */
  datatype AuditoriaAccesoId = AuditoriaAccesoId(id: Id, fecha: Instant)

  class AuditoriaAcceso {
    var id: Option<AuditoriaAccesoId>
    var emailUsuario: Option<string>
    var ipOrigen: Option<string>
    var informacionDispositivo: Option<string>
    var mensaje: Option<string>
    var estado: EstadoAuditoria
    var createdAt: Instant
    var updatedAt: Instant
    var deletedAt: Option<Instant>
    var usuario: Usuario?
    var aplicacion: Option<AplicacionRow>
    var accion: Option<AccionRow>

    /** The no-argument constructor: successful by default, both stamps now, nothing else set. */
    constructor (now: Instant)
      ensures id.None? && emailUsuario.None? && ipOrigen.None? && informacionDispositivo.None? && mensaje.None?
      ensures estado == EXITOSO && createdAt == now && updatedAt == now && !IsDeleted()
      ensures usuario == null && aplicacion.None? && accion.None?
    {
      id := None;
      emailUsuario := None;
      ipOrigen := None;
      informacionDispositivo := None;
      mensaje := None;
      estado := EXITOSO;
      createdAt := now;
      updatedAt := now;
      deletedAt := None;
      usuario := null;
      aplicacion := None;
      accion := None;
    }

    predicate IsDeleted()
      reads this
    {
      deletedAt.Some?
    }

    /** softDelete(): stamp both the deletion and the modification instant. */
    method SoftDelete(now: Instant)
      modifies this
      ensures IsDeleted() && deletedAt == Some(now) && updatedAt == now
      ensures id == old(id) && createdAt == old(createdAt) && estado == old(estado)
      ensures emailUsuario == old(emailUsuario) && mensaje == old(mensaje) && usuario == old(usuario)
      ensures ipOrigen == old(ipOrigen) && informacionDispositivo == old(informacionDispositivo)
      ensures aplicacion == old(aplicacion) && accion == old(accion)
    {
      deletedAt := Some(now);
      updatedAt := now;
    }

    /** restore(): clear the deletion instant and stamp the modification instant. */
    method Restore(now: Instant)
      modifies this
      ensures !IsDeleted() && updatedAt == now
      ensures id == old(id) && createdAt == old(createdAt) && estado == old(estado)
      ensures emailUsuario == old(emailUsuario) && mensaje == old(mensaje) && usuario == old(usuario)
      ensures ipOrigen == old(ipOrigen) && informacionDispositivo == old(informacionDispositivo)
      ensures aplicacion == old(aplicacion) && accion == old(accion)
    {
      deletedAt := None;
      updatedAt := now;
    }
  }

  /** exitoso(...): a successful access by a known user, keyed by a fresh id and now. */
  method Exitoso(usuario: Usuario?, emailUsuario: Option<string>, aplicacion: Option<AplicacionRow>,
                 accion: Option<AccionRow>, ipOrigen: Option<string>, mensaje: Option<string>,
                 freshId: Id, now: Instant) returns (a: AuditoriaAcceso)
    ensures fresh(a)
    ensures a.id == Some(AuditoriaAccesoId(freshId, now)) && a.estado == EXITOSO && a.usuario == usuario
    ensures a.emailUsuario == emailUsuario && a.aplicacion == aplicacion && a.accion == accion
    ensures a.ipOrigen == ipOrigen && a.mensaje == mensaje && a.informacionDispositivo.None?
    ensures a.createdAt == now && a.updatedAt == now && !a.IsDeleted()
  {
    a := new AuditoriaAcceso(now);
    a.id := Some(AuditoriaAccesoId(freshId, now));
    a.usuario := usuario;
    a.emailUsuario := emailUsuario;
    a.aplicacion := aplicacion;
    a.accion := accion;
    a.ipOrigen := ipOrigen;
    a.mensaje := mensaje;
    a.estado := EXITOSO;
  }

  /** fallido(...): a failed access, recorded without a user. */
  method Fallido(emailUsuario: Option<string>, aplicacion: Option<AplicacionRow>, accion: Option<AccionRow>,
                 ipOrigen: Option<string>, mensaje: Option<string>, freshId: Id, now: Instant)
    returns (a: AuditoriaAcceso)
    ensures fresh(a)
    ensures a.id == Some(AuditoriaAccesoId(freshId, now)) && a.estado == FALLIDO && a.usuario == null
    ensures a.emailUsuario == emailUsuario && a.aplicacion == aplicacion && a.accion == accion
    ensures a.ipOrigen == ipOrigen && a.mensaje == mensaje && a.informacionDispositivo.None?
    ensures a.createdAt == now && a.updatedAt == now && !a.IsDeleted()
  {
    a := new AuditoriaAcceso(now);
    a.id := Some(AuditoriaAccesoId(freshId, now));
    a.usuario := null;
    a.emailUsuario := emailUsuario;
    a.aplicacion := aplicacion;
    a.accion := accion;
    a.ipOrigen := ipOrigen;
    a.mensaje := mensaje;
    a.estado := FALLIDO;
  }
}
